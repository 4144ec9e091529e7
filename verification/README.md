# Verified models for the GN4124 core project

Dafny models of five parts of the repository, with proofs of what they are for. `dafny verify dfyconfig.toml` checks everything.

**The VDMA microcode toolchain** (`hdl/spec/sim/Test_Builder`) is a small compiler: C functions emit instructions with symbolic labels into an array, a second pass resolves the labels and prints bus writes, and a DMA sequencer runs the result. The emitted program services channels in an endless loop; each channel walks a circular scatter/gather list in the descriptor RAM.

The main result, `Programs.ChannelIssues`, goes the whole way: call the generator for any sane set of channels, execute the bus writes it prints on a descriptor RAM with any contents, start the sequencer with any register contents, and let condition lines and command queues do what they like. Then at every instant every static channel has issued a beginning of the endless repetition of its list's expansion, and every dynamic channel a beginning of one single expansion, whatever the other channels do; and it has issued all that the visits which served it ask for, except that the last of them may be in progress. No command comes from anywhere but the channels' fragments. `LoopProperties.Progress` adds that a channel which is not skipped is served in every pass, and a pass has a fixed length; `Programs.ContBlockFinishes` puts numbers to it. All results about runs speak of the run alone: a visit to a channel starts whenever the program counter is at the start of the channel's fragment, and `MainLoop.Served` counts those visits that are not skipped. It is put together from these layers.

| module | what it adds |
|---|---|
| `Words`, `SeqCode` | 32/64-bit words, the instruction encoders and one decoder that inverts them |
| `Sequencer` | a step-wise machine that decodes words and runs them |
| `ListWalk`, `Cycles` | the list walk a channel should perform, and, without any visits, the list's expansion and the bytes it covers |
| `Microcode`, `ChannelSteps`, `ChannelVisit` | one visit of the sequencer to a channel's fragment is one visit of the list walk, and touches only the channel's data block |
| `Listing` | the words of the microcode as numbers, and when a visit is skipped, without the model's own names |
| `MainLoop`, `LoopProperties` | any number of channels in an endless loop, with arbitrary inputs |
| `Assembler`, `TwoPass` | the two passes on the arrays, proved equal to a direct assembler, and the bus writes |
| `Service`, `Linker`, `Compile`, `Boot` | the generator's calls, and that resolving them gives the fragments and data blocks of `Microcode` |
| `Generator`, `EndToEnd` | the generator as methods, and the whole chain |
| `Success`, `LabelRules`, `Programs` | when assembly exits with an error, which label names are safe, and the two shipped programs |

**Bus operations of the test bench** (`BusModel`), **EEPROM transfers** (`Eeprom`, `EepromDump`), **the raw I/O driver** (`RawIrq`, `RawBuffer`) and **the Wishbone control registers** (`CtrlRegs`) are modelled independently of the toolchain, except that the toolchain prints its writes as bus commands.

## Assumptions

The sequencer's hardware is not part of the repository. Names, comments and use in the generating code give:

- Memory is addressed in words. `_IM` is absolute; `_RA` and `_RB` add the register to the offset.
- SYS_ADDR loads and stores move two words, low word first.
- LOAD_XFER_CTL starts a transfer of the system address and the word loaded, and copies bit 31 to C. The all-zero word starts no transfer and clears C.
- ADD_RA and ADD_RB work modulo 2^32, ADD_SYS_ADDR modulo 2^64. The immediate of ADD_SYS_ADDR is below 0x8000, so that its sign does not matter.
- Condition lines and queue-full flags may change at every step.
- WAIT_EVENT, ADD_SYS_ADDR_I and unnamed register and condition codes have no meaning here. A run that meets one, or leaves the RAM, is stuck; that this never happens is part of the theorems.

A channel's list has at least one entry; code, constants and data do not overlap; labels are declared once, have at most 32 characters and are not written like numbers. `MainLoop.ValidProgram`, `MainLoop.Fits` and `Boot.CleanLabels` say this exactly; `LabelRules.GoodBases` is a simple rule on base labels that is enough, and `Programs.SgDmaSane` and `Programs.ContBlockSane` show that the shipped programs meet it. The EEPROM has 256 bytes and wraps a page write inside its 8-byte page; a refused transfer stores nothing; the controller's FIFO is empty after every write transfer, however it ends. Hosts are little-endian, pages have 4096 bytes and pointers 8. U32 in the test bench has 32 bits.

## Where code and intention differ

The models follow the code.

- `vdma_channel_service_4` ignores its `condition` argument and always tests `_EXT_COND_LO` (`vdma_service.c:147`).
- The comment on `sg_size` (`vdma_service.c:32,129`) describes a step size; it is the number of entries.
- `opr8` passes its word address through a 32-bit variable (`model.c:599,606`). `BusModel.Opr8Reaches`: the right byte is accessed exactly when the address is below 2^32.
- The count that `i2c_write` returns includes a chunk that is refused, so that a refusal of the last chunk goes unnoticed, and a chunk for which polling ends without any status (the loop at `eeprom_utils.py:155-170` ends without a test of `i == 0`), whether the device has stored it or not; writing then even continues. `Eeprom.NotStoredButCounted` gives both inputs. `Eeprom.CountComplete` says exactly when the number returned is the length, `Eeprom.CountHonest` exactly when it is the number of bytes stored, and `Eeprom.WriteBytes` which bytes those are, for all outcomes.
- The count that `i2c_read` returns includes the bytes found in the FIFO after a transfer that has not completed (`Eeprom.ReadFails`).
- `i2c_write` with a length beyond the data raises IndexError after launching the chunks the data suffices for (`Eeprom.Raises`).
- `RR_FLAG_IRQREQUEST` and `RR_FLAG_IRQDISABLE` are the same bit (`rawrabbit.h:41-42`). Hence the first RR_IRQENA after probe may enable a line that is not disabled (`RawIrq.UnbalancedExactly`), the branch of `rr_pciremove` that would re-enable the line is never taken, and removal frees the handler and leaves the line enabled exactly when nothing was handled or re-enabled since probe and no handler has been called and waits to run (`RawIrq.RemovalIsClean`). `free_irq` lets a waiting handler run, which disables the line for good (`RawIrq.RemovalWhileCalled`); when the bit is clear, `free_irq` is skipped, and a waiting handler marks and disables without a device.
- `rr_bufsize` is an int and `RR_MAX_BUFSIZE` unsigned (`rawrabbit.h:54-56`), so that a negative parameter is raised to the maximum (`rawrabbit.c:786-790`).
- `eeprom_dump_to_file` raises IndexError if `i2c_read` has returned too few bytes and no record with address 0xFFFF comes first.
- The ioctls accept words that end beyond the reach of read and write, unless the buffer size is a multiple of 8 (`RawBuffer.WordsReachable`).

## Model

| member | source | states |
|---|---|---|
| SeqCode.DecodeEncode | hdl/spec/sim/Test_Builder/lib/vdma_seqcode.h:64-143 | one decoder inverts all encoders for all operands in range, so no two instructions share a word |
| SeqCode.EncodeDecode | hdl/spec/sim/Test_Builder/lib/vdma_seqcode.h:64-143 | the decoder accepts nothing but encodings of instructions in range |
| SeqCode.OrOperand | hdl/spec/sim/Test_Builder/lib/maketest.c:161 | or-ing an address into a pass-one word gives the encoding with that address: no other field is disturbed |
| Listing.InstructionWords | hdl/spec/sim/Test_Builder/lib/vdma_seqcode.h:64-130 | every instruction other than the events as a number, for all operands in range |
| Listing.EventWords | hdl/spec/sim/Test_Builder/lib/vdma_seqcode.h:132-143 | SIG_EVENT and WAIT_EVENT as numbers |
| Listing.OperandsCut | hdl/spec/sim/Test_Builder/lib/vdma_seqcode.h:64-130 | an operand too large for its field is cut to its low bits |
| Listing.AddressesCut | hdl/spec/sim/Test_Builder/lib/vdma_seqcode.h:79-123 | the same for instructions with an address only |
| Listing.EventsCut | hdl/spec/sim/Test_Builder/lib/vdma_seqcode.h:132-143 | the same for the events |
| Listing.NamedWords | hdl/spec/sim/Test_Builder/lib/vdma_seqcode.h:23-46 | the words with the named registers, conditions and condition lines as numbers |
| Listing.SkipsMeans | hdl/spec/sim/Test_Builder/lib/vdma_service.c:135-148 | a visit is skipped if and only if the condition line is low (high for a 3-word list with condition 0xF) or the queue of the channel's direction is full at the second step; a 4-word list ignores `condition` |
| Listing.Fragment4Words | hdl/spec/sim/Test_Builder/lib/vdma_service.c:146-200 | the 30 or 32 words of a 4-word service as numbers in the addresses of its code, data and constants; the first is the jump on condition code 7 |
| Listing.Fragment3Words | hdl/spec/sim/Test_Builder/lib/vdma_service.c:48-77 | the 16 or 18 words of a 3-word service as numbers |
| Listing.DataWords | hdl/spec/sim/Test_Builder/lib/vdma_service.c:212-238 | the words of a data block as numbers, entry by entry, low half of the address first |
| Sequencer.OutputGrows | hdl/spec/sim/Test_Builder/lib/vdma_service.c:48-77 | commands once issued stay issued |
| ListWalk.VisitMoves | hdl/spec/sim/Test_Builder/lib/vdma_service.c:152-200 | a visit moves the walk to the next slot of the list's cycle, from the last one to the first, with the right saved address |
| ListWalk.StaticVisits | hdl/spec/sim/Test_Builder/lib/vdma_service.c:146-238 | after v visits of a static list the position is v modulo the cycle, the list is unchanged, and the commands are those due |
| ListWalk.DynamicVisits | hdl/spec/sim/Test_Builder/lib/vdma_service.c:60-64 | a dynamic list is gone through once: consumed entries are spent, and once all are, visits issue nothing for ever |
| ListWalk.VisitsAreDue | hdl/spec/sim/Test_Builder/lib/vdma_service.c:181-185 | for both kinds of list the visits issue exactly what is due |
| Cycles.SlotsExpand | hdl/spec/sim/Test_Builder/lib/vdma_service.c:161-179 | the slots of one cycle are the repetitions (A + k * step mod 2^64, X) of all entries with 0 <= k < R, entries with R = 0 skipped |
| Cycles.EntryMeans | hdl/spec/sim/Test_Builder/lib/vdma_service.c:161-179 | entry (A, X, R) of a 4-word list adds R transfers (A + k * step mod 2^64, X), and the event bit 2^event_reg if R > 0 and X >= 0x80000000; X = 0 adds nothing |
| Cycles.SlotMeans | hdl/spec/sim/Test_Builder/lib/vdma_service.c:166-172 | one slot written out: the transfer, if X is not 0, and the event after the last repetition if X >= 0x80000000 |
| Cycles.CyclesExpand | hdl/spec/sim/Test_Builder/lib/vdma_service.c:187-198 | m cycles of visits to a static list issue its expansion m times |
| Cycles.StaticIsCyclic | hdl/spec/sim/Test_Builder/lib/vdma_service.c:146-200 | what is due of a static list is always a beginning of the endless repetition of its expansion |
| Cycles.CyclesDone | hdl/spec/sim/Test_Builder/lib/vdma_service.c:187-198 | after the visits of m cycles of a static list at least m expansions are due |
| Cycles.DynamicIsOnce | hdl/spec/sim/Test_Builder/lib/vdma_service.c:181-185 | what is due of a dynamic list is always a beginning of one expansion, and all of it after enough visits |
| Cycles.OneExpansion | hdl/spec/sim/Test_Builder/lib/vdma_service.c:146-200 | as many visits as the list has slots make exactly one expansion due, for both kinds of list |
| Cycles.EventComesLast | hdl/spec/sim/Test_Builder/cont_block_dma.c:46-52 | if the last entry alone has bit 31, the expansion is all transfers and then one event |
| Cycles.Slots3 | hdl/spec/sim/Test_Builder/lib/vdma_service.c:51-57 | visit n of a 3-word list issues entry n, and the event exactly if that entry has bit 31 |
| Cycles.ContiguousTiles | hdl/spec/sim/Test_Builder/cont_block_dma.c:40-52 | one cycle of an address-contiguous list moves every byte of one range exactly once and no other byte |
| ChannelSteps.CheckRuns | hdl/spec/sim/Test_Builder/lib/vdma_service.c:147-148 | the two tests leave the fragment exactly when the visit is skipped, which `Listing.SkipsMeans` spells out |
| ChannelSteps.Issue4Runs | hdl/spec/sim/Test_Builder/lib/vdma_service.c:164-172 | the block issues one transfer from the saved address, and the event exactly at the last repetition of an entry with bit 31 |
| ChannelSteps.AdvanceRuns | hdl/spec/sim/Test_Builder/lib/vdma_service.c:187-198 | counter and pointer go to the next entry or both restart, no other word changes, in at most 8 steps |
| ChannelSteps.ForwardOnly | hdl/spec/sim/Test_Builder/lib/vdma_service.c:49-77 | every step inside a fragment goes forward, to its end at the furthest, whatever registers, data and inputs are: no jump of a service goes back |
| ChannelSteps.ClimbsBetween | hdl/spec/sim/Test_Builder/lib/vdma_service.c:147-200 | while a run only goes forward, its program counter lies between those of the two ends |
| ChannelVisit.Serve4Runs | hdl/spec/sim/Test_Builder/lib/vdma_service.c:152-200 | a served visit to a 4-word list does to memory and output what one visit of the list walk does |
| ChannelVisit.Serve3Runs | hdl/spec/sim/Test_Builder/lib/vdma_service.c:51-77 | the same for a 3-word list |
| ChannelVisit.VisitRuns | hdl/spec/sim/Test_Builder/lib/vdma_service.c:146-200 | a visit goes forward to the end of the fragment, within as many steps as that has words, changes only the channel's data block, issues nothing if skipped, and otherwise performs one visit of the list walk |
| MainLoop.SitesSeparate | hdl/spec/sim/Test_Builder/lib/vdma_service.c:205-242 | fragments and data blocks laid out by successive calls are disjoint from each other and from the constants |
| MainLoop.OtherKept | hdl/spec/sim/Test_Builder/sg_dma.c:101-126 | a visit to one channel leaves code and data of every other channel as they were |
| MainLoop.ClimbIsQuiet | hdl/spec/sim/Test_Builder/sg_dma.c:101-126 | from the start of a fragment to the next, no other visit starts |
| MainLoop.TurnRuns | hdl/spec/sim/Test_Builder/sg_dma.c:101-136 | one visit, and the way to the next channel, adds one visit to the account of that channel or none, and nothing to others; no visit starts in between |
| MainLoop.LoopRuns | hdl/spec/sim/Test_Builder/sg_dma.c:101-136 | for every input stream, every time after the first step lies between two visits that follow each other, with no visit in between and all accounts right at both |
| MainLoop.VisitSettled | hdl/spec/sim/Test_Builder/sg_dma.c:101-136 | whenever the program counter is at the start of a fragment, all accounts are those of the visits served before |
| MainLoop.IssuesDue | hdl/spec/sim/Test_Builder/sg_dma.c:101-136 | whenever the program counter is at the start of a fragment, each channel has issued exactly what is due for the visits it was served, and no command came from outside the fragments |
| MainLoop.SafeAlways | hdl/spec/sim/Test_Builder/sg_dma.c:91-136 | at every instant the sequencer is not stuck, each channel has issued at most what is due for the visits served so far and at least what is due for all of them but the last, and no command came from outside the fragments |
| LoopProperties.PassBound | hdl/spec/sim/Test_Builder/sg_dma.c:101-136 | from every visit to channel 0 on, one pass of MAIN visits every channel once and in order, makes no other visit, and is back at channel 0 within the length of the code |
| LoopProperties.PassServes | hdl/spec/sim/Test_Builder/sg_dma.c:101-136 | in one pass a channel is served once, or not at all if its visit is skipped |
| LoopProperties.Progress | hdl/spec/sim/Test_Builder/sg_dma.c:101-136 | a channel that is not skipped is served exactly m times within the length of m passes |
| LoopProperties.ExpansionIssued | hdl/spec/sim/Test_Builder/sg_dma.c:101-136 | a channel that is not skipped has issued its whole expansion, and nothing else, within as many passes as its list has slots |
| LoopProperties.SkipIsSilent | hdl/spec/sim/Test_Builder/lib/vdma_service.c:147-148 | from a visit that finds servicing not required or the queue full until the next visit, the sequencer issues nothing at all |
| LoopProperties.AtRest | hdl/spec/sim/Test_Builder/lib/vdma_service.c:152-200 | whenever a visit starts, for every channel, static or dynamic: 1 <= CNT <= SIZE, INDEX is the address of entry SIZE - CNT, and a positive RPT is below the entry's count R, SYSA = A + (R - RPT) * step, and that entry is intact; a static list is intact, each entry of a dynamic one is intact or spent |
| Assembler.Asm.constructor | hdl/spec/sim/Test_Builder/lib/maketest.c:111-127 | nothing has been called and the RAM and label table are blank |
| Assembler.Asm.Do | hdl/spec/sim/Test_Builder/lib/vdma_seqcode_lib.c:166-278 | one emitting call updates arrays and counters as specified, and exits on the specified limits |
| Assembler.Asm.DoAll | hdl/spec/sim/Test_Builder/lib/vdma_seqcode_lib.c:306-411 | successive calls, up to the first exit |
| Assembler.Asm.LabelLookup | hdl/spec/sim/Test_Builder/lib/vdma_seqcode_lib.c:178-190 | the search finds the first declaration of the name, if there is one |
| Assembler.Asm.ResolveAt | hdl/spec/sim/Test_Builder/lib/maketest.c:156-176 | pass two on one word, all others unchanged |
| Assembler.Asm.Process | hdl/spec/sim/Test_Builder/lib/maketest.c:154-190 | pass two resolves every word in place and outputs the write commands of the resolved RAM |
| TwoPass.TwoPassIsDirect | hdl/spec/sim/Test_Builder/lib/maketest.c:154-176 | for every sequence of calls, after pass two a word is used exactly when a direct assembler that knows all addresses puts something there, and holds the same; forward and backward references alike |
| TwoPass.FinalInstr | hdl/spec/sim/Test_Builder/lib/maketest.c:159-168 | a resolved instruction is the encoding with the label's address or hex number |
| TwoPass.ResolveAgain | hdl/spec/sim/Test_Builder/lib/maketest.c:156-176 | words without a label are unchanged and a second pass two changes nothing |
| TwoPass.LookupDeclared | hdl/spec/sim/Test_Builder/lib/vdma_seqcode_lib.c:197-230 | if names are declared once, every declaration is the one that is found |
| TwoPass.WritesLoad | hdl/spec/sim/Test_Builder/lib/maketest.c:180-187 | executing the printed writes sets exactly the used words of the descriptor RAM, byte for byte |
| TwoPass.WritesAscend | hdl/spec/sim/Test_Builder/lib/maketest.c:180-187 | the writes go to strictly ascending addresses inside the RAM, with all byte enables and no burst |
| TwoPass.WritesCount | hdl/spec/sim/Test_Builder/lib/maketest.c:180-187 | there is exactly one write per used word |
| Linker.FragmentProgrammed | hdl/spec/sim/Test_Builder/lib/vdma_service.c:146-200 | the resolved words of a service call are the fragment that `ChannelVisit.VisitRuns` is about, for both formats and both settings of dynamic_list |
| Linker.DataStored | hdl/spec/sim/Test_Builder/lib/vdma_service.c:209-239 | the resolved data is a data block at the start of its walk |
| Linker.LinkedByLabels | hdl/spec/sim/Test_Builder/lib/vdma_service.c:88-108 | with unique labels every reference of a fragment goes to its own block or to a constant |
| Compile.RegionsKept | hdl/spec/sim/Test_Builder/lib/vdma_service.c:205-242 | the words of a channel's code and data region are those its own service call emitted: no other call overwrites them |
| Compile.ConstantsAre | hdl/spec/sim/Test_Builder/sg_dma.c:146-157 | the words and names of ZERO, MINUS1, THREE, FOUR and MARKER |
| Boot.ImageBoots | hdl/spec/sim/Test_Builder/cont_block_dma.c:67-107 | a RAM holding the assembled image is a correct start for the main loop, whatever the other words are |
| Generator.Generator.ListService | hdl/spec/sim/Test_Builder/lib/vdma_service.c:103-108 | the loop over the list makes the calls for all entries in order |
| Generator.Generator.ChannelService | hdl/spec/sim/Test_Builder/lib/vdma_service.c:121-244 | a service call emits its fragment at the program address, its data at data_address, and advances both by the exact lengths, or exits as pass one says |
| Generator.Generator.VdmaMain | hdl/spec/sim/Test_Builder/cont_block_dma.c:64-114 | the whole generator outputs the writes of the two-pass assembly of its calls, or exits exactly when pass one does |
| EndToEnd.ImageArrives | hdl/spec/sim/Test_Builder/sg_dma.c:162 | after the printed writes the descriptor RAM holds the image, whatever it held before |
| EndToEnd.Booted | hdl/spec/sim/Test_Builder/sg_dma.c:88-164 | assembled, written out and started, the program is a start of the main loop, so that all results about runs hold for it |
| EndToEnd.Delivered | hdl/spec/sim/Test_Builder/sg_dma.c:88-164 | with any inputs and any former contents the sequencer is never stuck, each channel has issued at every instant what its list asks for in the visits it was served, the last of which may be in progress, and no command came from outside the fragments |
| Success.RoomGoes | hdl/spec/sim/Test_Builder/lib/vdma_seqcode_lib.c:35-39 | pass one succeeds if and only if every word and label fits and there are few enough labels |
| Success.ExitStatus | hdl/spec/sim/Test_Builder/lib/vdma_seqcode_lib.c:26-40 | exits with -89 for a label over 32 characters, -90 for the 2048th label, -91 for a word in the last cell; what every other call does to the state |
| Success.LabelsMatch | hdl/spec/sim/Test_Builder/lib/maketest.c:37-45 | labels match if and only if they are equal and not empty |
| Success.Numerals | hdl/spec/sim/Test_Builder/lib/maketest.c:165-170 | an operand is a number exactly if it is 0x or 0X and a hex digit follows |
| Success.NumeralNext | hdl/spec/sim/Test_Builder/lib/maketest.c:167-168 | a numeral has its value to the base 16, and ends at the first other character |
| Success.OperandMeans | hdl/spec/sim/Test_Builder/lib/maketest.c:159-173 | an operand stands for the low half of its address, else of its number, else for 0 |
| Success.AssemblySucceeds | hdl/spec/sim/Test_Builder/lib/vdma_seqcode_lib.c:197-230 | a program that fits, with short and few labels, is assembled without an exit |
| LabelRules.GoodBasesClean | hdl/spec/sim/Test_Builder/lib/vdma_service.c:48-108 | if no base label begins another or begins like a global label or number, all labels are distinct, short and not numbers |
| Programs.SaneDelivers | hdl/spec/sim/Test_Builder/sg_dma.c:88-164 | every program that fits and whose labels are unique, short, few and not spelt like its number operands is assembled and delivers |
| Programs.ChannelIssues | hdl/spec/sim/Test_Builder/lib/vdma_service.c:146-238 | at every instant of every run of such a program a static channel has issued a beginning of its list's expansion repeated for ever and all cycles its finished visits make up, a dynamic one a beginning of one expansion and all of it once its finished visits have gone through it; and every command issued belongs to a channel |
| Programs.GoodBasesSane | hdl/spec/sim/Test_Builder/lib/vdma_service.c:48-108 | if no base label begins another or begins like a global label or number, the labels are as required |
| Programs.SgDmaSane | hdl/spec/sim/Test_Builder/sg_dma.c:51-164 | sg_dma.c is a sane program |
| Programs.ContBlockSane | hdl/spec/sim/Test_Builder/cont_block_dma.c:46-114 | cont_block_dma.c is a sane program |
| Programs.ContBlockMoves2MB | hdl/spec/sim/Test_Builder/cont_block_dma.c:40-52 | one cycle of its list moves exactly 0x200000 consecutive bytes, each once |
| Programs.ProgramWords | hdl/spec/sim/Test_Builder/cont_block_dma.c:67-107 | the words of a loaded program: NOP at 0, every service, the closing NOPs and jump, the constants |
| Programs.ContBlockWords | hdl/spec/sim/Test_Builder/cont_block_dma.c:75-90 | the words of cont_block_dma.c from MAIN to the closing jump, as 32 numbers |
| Programs.SgDmaTransfers | hdl/spec/sim/Test_Builder/sg_dma.c:51-75 | the transfers and events of sg_dma.c's two lists, as numbers |
| Programs.ContBlockFinishes | hdl/spec/sim/Test_Builder/cont_block_dma.c:193-206 | the event that the script waits for: if the channel is not skipped, after at most 16417 steps all transfers of the block, then the event, and nothing else have been issued |
| BusModel.OprPrn | hdl/spec/sim/Test_Builder/lib/model.c:79-108 | one command per word, at successive addresses: a read for mode r or v, a write for any other; a burst unless it is the last and not asked for, or the last word of a 4096-byte block |
| BusModel.CommandKinds | hdl/spec/sim/Test_Builder/lib/model.c:93-104 | which modes read and which write |
| BusModel.BurstFollows | hdl/spec/sim/Test_Builder/lib/model.c:42-54 | a burst may follow every word but the last of a 4096-byte block |
| BusModel.Xopr | hdl/spec/sim/Test_Builder/lib/model.c:115-132 | one command on the aligned word, a read exactly for mode r or v |
| BusModel.Opr32 | hdl/spec/sim/Test_Builder/lib/model.c:498-524 | at any byte address a write changes exactly 4 bytes to the little-endian bytes of the data, a read (mode r or v) checks exactly those under its mask; one command, or two of which the first is a burst unless its block ends there |
| BusModel.Opr16 | hdl/spec/sim/Test_Builder/lib/model.c:548-573 | the same for 2 bytes |
| BusModel.Opr8 | hdl/spec/sim/Test_Builder/lib/model.c:597-609 | the same for 1 byte, at the address cut to 32 bits |
| BusModel.Opr8Reaches | hdl/spec/sim/Test_Builder/lib/model.c:599-608 | an 8-bit write reaches the byte asked for if and only if its address is below 2^32 |
| BusModel.PiecesImplement | hdl/spec/sim/Test_Builder/lib/model.c:505-515 | commands that handle the pieces of an access in one or two words are together the access |
| BusModel.ShiftedBytes | hdl/spec/sim/Test_Builder/lib/model.c:507-510 | shifting data by whole bytes moves its bytes into the right lanes |
| BusModel.MaskMeans | hdl/spec/sim/Test_Builder/lib/model.c:71-74 | a mask of ones checks a whole byte, zeros nothing, and a single bit that bit |
| Eeprom.FillFifo | sw/gnurabbit/python/eeprom_utils.py:136-150 | a chunk is as long as FIFO, length and page allow, and its bytes go into the FIFO in order; IndexError exactly if the data is shorter |
| Eeprom.LowBytes | sw/gnurabbit/python/eeprom_utils.py:138 | numbers from 0 to 255 are sent as they are, any other by its low 8 bits |
| Eeprom.ChunkEnds | sw/gnurabbit/python/eeprom_utils.py:136-150 | a chunk stays in its page, and one shorter than 6 and than what is left ends at a page boundary |
| Eeprom.I2cWrite | sw/gnurabbit/python/eeprom_utils.py:105-171 | memory, transfers sent, count and exception are those of the chunk-by-chunk specification, for every length and outcome; and if every chunk is stored, the memory is the old one with the numbers given put at the offset |
| Eeprom.OnlyLength | sw/gnurabbit/python/eeprom_utils.py:132-150 | data beyond the length is ignored, and data enough raises nothing |
| Eeprom.Raises | sw/gnurabbit/python/eeprom_utils.py:137-141 | too little data raises IndexError if and only if no chunk the data suffices for is refused |
| Eeprom.DrainFifo | sw/gnurabbit/python/eeprom_utils.py:96-100 | the FIFO is appended to the data in order and emptied |
| Eeprom.I2cRead | sw/gnurabbit/python/eeprom_utils.py:14-102 | the process ends exactly if the offset transfer does not complete; otherwise data and count are those of the specification and memory is unchanged; and if every transfer completes, exactly the bytes from the offset on are appended |
| Eeprom.PageIsReplace | sw/gnurabbit/python/eeprom_utils.py:146-150 | a write that stays in its page is plain replacement although the device wraps |
| Eeprom.PageWraps | sw/gnurabbit/python/eeprom_utils.py:146-150 | a write across the page boundary would wrap and miss the next page, so the break is needed |
| Eeprom.WriteStores | sw/gnurabbit/python/eeprom_utils.py:132-171 | if every chunk is stored, exactly the data's range is replaced and the count is complete |
| Eeprom.WriteRefused | sw/gnurabbit/python/eeprom_utils.py:164-169 | if a chunk is the first refused, the count includes it, and if all earlier ones were stored, memory holds exactly those |
| Eeprom.CountComplete | sw/gnurabbit/python/eeprom_utils.py:132-171 | the number returned is the length if and only if no chunk but possibly the last was refused |
| Eeprom.CountHonest | sw/gnurabbit/python/eeprom_utils.py:132-171 | the count is at least the number of bytes stored, and equal to it if and only if every chunk was launched and stored, which is exactly when all the data is stored |
| Eeprom.WriteBytes | sw/gnurabbit/python/eeprom_utils.py:132-171 | for all outcomes, a byte of the memory is the data byte meant for it exactly if that was launched and stored, and the old byte otherwise |
| Eeprom.NotStoredButCounted | sw/gnurabbit/python/eeprom_utils.py:155-171 | two inputs that are counted but not stored: a refused last chunk, and a chunk for which polling ends without a status |
| Eeprom.PacketsFit | sw/gnurabbit/python/eeprom_utils.py:132-153 | every transfer carries an offset and 1 to 6 data bytes of one page, also in a write that raises an exception later |
| Eeprom.ReplaceSlice | sw/gnurabbit/python/eeprom_utils.py:132-153 | with offset + length <= 256 the result is the old memory with that slice exchanged |
| Eeprom.ReadFetches | sw/gnurabbit/python/eeprom_utils.py:71-102 | chunks of at most 8 bytes join to the bytes from the offset on |
| Eeprom.ReadFails | sw/gnurabbit/python/eeprom_utils.py:85-102 | if a transfer does not complete, the bytes before it are right and the FIFO's contents are appended and counted in place of the rest of it, and nothing after |
| Eeprom.WriteThenRead | sw/gnurabbit/python/eeprom_utils.py:68-171 | reading back a written range gives the data, through different chunkings, for every offset and every length the memory holds |
| EepromDump.Printed | sw/gnurabbit/python/eeprom_utils.py:198-204 | the records printed end with the first whose address is 0xFFFF, or are all |
| EepromDump.DumpToFile | sw/gnurabbit/python/eeprom_utils.py:198-204 | the loop prints exactly those records, one line each, of the records that are there; IndexError exactly if the data ends too early and no printed record has address 0xFFFF |
| EepromDump.LinePrinted | sw/gnurabbit/python/eeprom_utils.py:199-201 | a line is four upper-case digits, a blank and eight upper-case digits, high bytes first |
| EepromDump.SplitKeeps | sw/gnurabbit/python/eeprom_utils.py:234 | splitting keeps every character that is not white space, in order; no word is empty or holds white space |
| EepromDump.SplitAtSpace | sw/gnurabbit/python/eeprom_utils.py:234 | white space ends a word: a line splits into what is before and after it |
| EepromDump.Spaces | sw/gnurabbit/python/eeprom_utils.py:234 | which characters are white space |
| EepromDump.BytesRead | sw/gnurabbit/python/eeprom_utils.py:237-240 | a slice of one or two hex digits is its value, anything else raises |
| EepromDump.TokenRead | sw/gnurabbit/python/eeprom_utils.py:235-240 | a token's bytes are its pairs of digits from the last to the first, and what follows them is ignored |
| EepromDump.TokenTooShort | sw/gnurabbit/python/eeprom_utils.py:235-240 | a token with too few digits raises |
| EepromDump.LineRead | sw/gnurabbit/python/eeprom_utils.py:234 | a line is read exactly if it has two words that can be read as 2 and 4 bytes |
| EepromDump.AppendToken | sw/gnurabbit/python/eeprom_utils.py:235-240 | a token's bytes are appended from its last two digits to its first, or the line raises |
| EepromDump.FileToData | sw/gnurabbit/python/eeprom_utils.py:233-240 | the loop yields the bytes of all lines, or raises exactly if some line cannot be read |
| EepromDump.ParsePrinted | sw/gnurabbit/python/eeprom_utils.py:200-202 | reading a printed record gives its six bytes |
| EepromDump.DumpThenParse | sw/gnurabbit/python/eeprom_utils.py:233-240 | reading a dump gives the bytes of the printed records, for every byte sequence |
| EepromDump.Restores | sw/gnurabbit/python/eeprom_utils.py:226-252 | a dump written to another EEPROM copies the bytes of the printed records and no others, even for dumps longer than the memory |
| RawIrq.Driver.PciProbe | sw/gnurabbit/kernel/rawrabbit.c:110-143 | a second device is refused; a found one has its handler installed and the shared bit set if the interrupt is granted |
| RawIrq.Driver.Interrupt | sw/gnurabbit/kernel/rawrabbit.c:41-53 | the handler counts, marks and disables |
| RawIrq.Driver.IrqWait | sw/gnurabbit/kernel/rawrabbit.c:529-536 | EAGAIN exactly if the bit is set |
| RawIrq.Driver.IrqEna | sw/gnurabbit/kernel/rawrabbit.c:542-552 | EAGAIN exactly if the bit is clear; otherwise the bit is cleared and the line enabled once |
| RawIrq.Driver.PciRemove | sw/gnurabbit/kernel/rawrabbit.c:174-195 | if the bit is set, a waiting handler runs and the handler is freed; the bit is cleared, and the line stays as it then is; if the bit is clear, the handler stays |
| RawIrq.ProbeIsFresh | sw/gnurabbit/kernel/rawrabbit.c:129-141 | a probe that is granted the interrupt of an enabled line leaves the state the following results start from: one handler, the shared bit set |
| RawIrq.BitTracksLine | sw/gnurabbit/kernel/rawrabbit.c:529-562 | in every interleaving, from the first handled interrupt or successful re-enabling on, the bit is set exactly when the line is disabled, depth is 0 or 1, and interrupts less re-enablings tell which |
| RawIrq.UnbalancedExactly | sw/gnurabbit/kernel/rawrabbit.c:132-140 | a re-enabling is unbalanced if and only if nothing was handled or re-enabled since probe |
| RawIrq.EnableAfterProbe | sw/gnurabbit/kernel/rawrabbit.h:40-42 | the first RR_IRQENA after probe is such a case |
| RawIrq.SharedBit | sw/gnurabbit/kernel/rawrabbit.h:40-42 | both flags are bit 1, and no other bit is touched |
| RawIrq.RemovalIsClean | sw/gnurabbit/kernel/rawrabbit.c:179-187 | removal frees the handler and leaves the line enabled if and only if nothing was handled or re-enabled since probe and no handler waits; and what it leaves in each other case |
| RawIrq.RemovalWhileCalled | sw/gnurabbit/kernel/rawrabbit.c:179-187 | the input with a waiting handler: the line is left disabled |
| RawIrq.NoHandler | sw/gnurabbit/kernel/rawrabbit.c:131-141 | without a granted interrupt no sequence of calls changes anything |
| RawIrq.WaitSeesInterrupts | sw/gnurabbit/kernel/rawrabbit.c:529-540 | EAGAIN exactly when the line is disabled; a sleeper is released exactly by interrupts handled since, modulo 2^64 |
| RawBuffer.FileTarget | sw/gnurabbit/kernel/rawrabbit.h:71-91 | positions of the buffer's area go to the buffer, those of areas 0, 2 and 4 to the board, and the others below 2^60 are invalid |
| RawBuffer.FarPosition | sw/gnurabbit/kernel/rawrabbit.h:76-85 | from 2^60 on the area number wraps: a position goes to the buffer exactly if the position modulo 2^60 is valid |
| RawBuffer.IoctlTarget | sw/gnurabbit/kernel/rawrabbit.h:76-91 | ioctl addresses go to the buffer exactly in its area, to the board exactly in areas 0, 2 and 4 |
| RawBuffer.Init | sw/gnurabbit/kernel/rawrabbit.c:786-795 | for every int parameter there is a device exactly if it is not 0 and the pages are granted; a negative or too large size becomes the maximum; the buffer is zeroed |
| RawBuffer.Device.Read | sw/gnurabbit/kernel/rawrabbit.c:632-659 | the part of the buffer at the position, cut at its end, and the position moved by its length |
| RawBuffer.Device.Write | sw/gnurabbit/kernel/rawrabbit.c:697-721 | data that fits is all stored and seen by a read, data that does not is cut at the end, other bytes unchanged, ENOSPC at the end |
| RawBuffer.Device.Ioctl | sw/gnurabbit/kernel/rawrabbit.c:358-416 | ENOMEDIUM exactly from the end on, EINVAL exactly for sizes other than 1, 2, 4 and 8, EIO exactly for offsets that are no multiple of the size, and otherwise exactly the word's bytes moved |
| RawBuffer.AnswerMeans | sw/gnurabbit/kernel/rawrabbit.c:361-397 | the same conditions for the answer alone |
| RawBuffer.SlicesFollow | sw/gnurabbit/kernel/rawrabbit.c:649-659 | successive reads of any sizes join to one slice cut at the end of the buffer |
| RawBuffer.ZeroIsEnd | sw/gnurabbit/kernel/rawrabbit.c:651-654 | a read of positive size returns 0 if and only if the earlier ones reached the end |
| RawBuffer.WordSeen | sw/gnurabbit/kernel/rawrabbit.c:365-398 | a word stored by RR_WRITE is seen by read as its little-endian bytes, every other byte unchanged, and RR_READ gives the value back |
| RawBuffer.WordsReachable | sw/gnurabbit/kernel/rawrabbit.c:361-394 | all words the ioctls accept lie within reach of read if and only if the size is a multiple of 8 |
| CtrlRegs.Slave.constructor | hdl/common/rtl/dummy_ctrl_regs.vhd:71-78 | the signals after a reset |
| CtrlRegs.Slave.Clock | hdl/common/rtl/dummy_ctrl_regs.vhd:69-164 | the clocked process, its late signal updates made explicit |
| CtrlRegs.SlaveAnswers | hdl/common/rtl/dummy_ctrl_regs.vhd:69-164 | in every run, resets included: busy equals ack bit 0 and the other nine are 0; acknowledge, register-1 pulse, registers and data bus are exactly what the bus history says |
| CtrlRegs.ReadsLastWrite | hdl/common/rtl/dummy_ctrl_regs.vhd:132-155 | a read of register 2, 3 or LED is acknowledged with the last accepted write |
| CtrlRegs.Responds | hdl/common/rtl/dummy_ctrl_regs.vhd:80-91 | a request held for two edges is acknowledged in exactly one of the two cycles that follow |
| CtrlRegs.OneAckEach | hdl/common/rtl/dummy_ctrl_regs.vhd:80-91 | as many acknowledge cycles as accepted accesses, at every instant |
| CtrlRegs.PulseOnce | hdl/common/rtl/dummy_ctrl_regs.vhd:83-95 | an accepted write to register 1 gives one pulse of one cycle, together with its acknowledge |

## Left out

- The DMA controller, arbiter, packet decoder and DMA masters: their sources are not part of this model.
- `vdma_array`, the listing and output files, comments, and the text of diagnostics; duplicate and unresolved labels are modelled by their effect (the first declaration counts, an unresolved operand stands for 0).
- Two service functions are one method, `Generator.Generator.ChannelService`, that branches on the kind of list; a 3-word channel ignores its step and repeat counts.
- A word put beyond the descriptor RAM by a preceding `vdma_org` is undefined in C; `Assembler.Assemble` takes it to exit like a word put into the last cell.
- `sscanf("%x")` accepts white space, a sign and a second 0x, and overflows; `Assembler.Number` reads hex digits only.
- Rewriting a dynamic list from the host while it is being walked.
- `RawBuffer`: user-copy faults, board memory areas and I/O ports; one open file at a time.
- `RawIrq`: removal while the driver's lock is held (RR_DEVSEL), time stamps, signals that interrupt a sleeper, and a second probe after a removal that has kept the handler; the interrupt line is this driver's alone.
- Polling loops of `eeprom_utils.py` and the settings of the I2C controller: each transfer has one outcome, chosen freely.
- Python's `int(s, 16)` also accepts signs and white space; `EepromDump.ParseByte` takes anything but hex digits as an error. A negative offset of `i2c_write` or `i2c_read` is left out.
- `CtrlRegs`: a reset takes effect at the next clock edge rather than at once; byte selects, which the slave ignores; undefined levels other than on the address and in the data read from register 1.
- `swap8`, `swap16`, command line tools, benchmarks, pin constraints and `dummy_stat_regs.vhd`: easy or without behaviour of their own.
