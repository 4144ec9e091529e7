/** The two shipped programs: sg_dma.c and cont_block_dma.c. */
module Programs {
  import opened Words
  import opened SeqCode
  import opened Sequencer
  import opened ListWalk
  import opened Assembler
  import opened TwoPass
  import opened Microcode
  import opened MainLoop
  import opened Compile
  import opened EndToEnd
  import opened LabelRules
  import opened LoopProperties
  import opened Cycles
  import opened Listing
  import opened ChannelSteps
  import Success
  import Boot

  const SG_LIST_0: seq<SgEntry> := [
    SgEntry(0x8765_4321_200F_0000, 0x0001_0080, 2), SgEntry(0x8765_4321_200F_1000, 0x0001_0080, 2),
    SgEntry(0x8765_4321_200F_2000, 0x0001_0080, 2), SgEntry(0x8765_4321_200F_3000, 0x8001_0080, 2)]

  const SG_LIST_1: seq<SgEntry> := [
    SgEntry(0xBB00_0000_4008_7000, 0x0008_0080, 1), SgEntry(0xBB00_0000_4008_6000, 0x0008_0080, 1),
    SgEntry(0xBB00_0000_4008_5000, 0x0008_0080, 1), SgEntry(0xBB00_0000_4008_4000, 0x8008_0080, 1)]

  /** Two dynamic channels, one with a 4-word and one with a 3-word list. */
  const SG_DMA := Program(
    [Channel("L2P_CHAN0", true, 'l', 0, EXT_COND_0, EXT_COND_LO, true, 0x80, SG_LIST_0),
     Channel("L2P_CHAN1", false, 'l', 0, EXT_COND_0, EXT_COND_LO, true, 0, SG_LIST_1)],
    0x200, 0x100, 0, true)

  const BLOCK_LIST: seq<SgEntry> := [
    SgEntry(0x8765_4321_FF10_00C8, 0x0001_0F38, 1), SgEntry(0x8765_4321_FF10_1000, 0x0001_0000, 511),
    SgEntry(0x8765_4321_FF30_0000, 0x8001_00C8, 1)]

  const BLOCK_CHANNEL := Channel("L2P_CHAN0", true, 'l', 0, EXT_COND_0, EXT_COND_LO, false, 0x1000, BLOCK_LIST)

  /** One static channel moving a 2 MB block in three entries. */
  const CONT_BLOCK := Program([BLOCK_CHANNEL], 0x200, 0x100, 1, false)

  /** A program that can be generated: it fits, and its labels are short, few, declared once
      and not spelt like the numbers used as operands. */
  predicate Sane(p: Program) {
    && Small(p.channels) && ValidProgram(p)
    && Boot.CleanLabels(p) && Success.Short(Labels(p)) && |Labels(p)| < MAX_LABELS
  }

  /** A rule on the base labels alone that makes a program sane. */
  lemma GoodBasesSane(p: Program)
    requires Small(p.channels) && ValidProgram(p) && GoodBases(p.channels) && 14 * |p.channels| + 7 < MAX_LABELS
    ensures Sane(p)
  {
    hide ValidProgram, GoodBases, Boot.CleanLabels, Success.Short, Labels;
    GoodBasesClean(p);
  }

  /** Every sane program is assembled without an error exit. Written out to any descriptor RAM
      and started, with any inputs, it is never stuck, and at every instant each channel has
      issued what its list asks for in the visits it was served, the last of which may be in
      progress, and nothing else has been issued. */
  lemma SaneDelivers(p: Program, base: Long, was: seq<Word>, init: State, f: Inputs, n: nat, k: nat)
    requires Sane(p) && base % 4 == 0 && base + 4 * RAM_SIZE <= LONG_LIMIT
    requires var r := AssembleAll(BLANK, ProgramStmts(p));
             r.Going? ==> Loaded(Writes(base, PassTwo(r.st)), base, was, init.mem)
    requires init.pc == START && init.out == [] && k < |p.channels|
    ensures AssembleAll(BLANK, ProgramStmts(p)).Going?
    ensures Run(init, f, n).Some? && Owned(p, Run(init, f, n).value.out)
    ensures var issued := Issues(p, Run(init, f, n).value.out, k);
            var v := Served(p, init, f, n, k);
            Due(p.channels[k], Before(v)) <= issued <= Due(p.channels[k], v)
  {
    hide AssembleAll, ProgramStmts, Loaded, Writes, PassTwo, Boot.CleanLabels;
    hide Success.Short, Labels, Run, Due, Issues, Served, Owned;
    Success.AssemblySucceeds(p);
    Delivered(p, base, AssembleAll(BLANK, ProgramStmts(p)).st, was, init, f, n, k);
  }

  /** What a channel of such a program has issued after `v` visits that served it, at every
      instant of every run. Of a static list: a beginning of the endless repetition of its
      expansion, and all the cycles that the visits before the last one make up. Of a dynamic
      list: a beginning of one single expansion, and all of it once the visits before the last
      one have gone through it. The channels together have issued everything there is. */
  lemma ChannelIssues(p: Program, base: Long, was: seq<Word>, init: State, f: Inputs, n: nat, k: nat, m: nat)
    requires Sane(p) && base % 4 == 0 && base + 4 * RAM_SIZE <= LONG_LIMIT
    requires var r := AssembleAll(BLANK, ProgramStmts(p));
             r.Going? ==> Loaded(Writes(base, PassTwo(r.st)), base, was, init.mem)
    requires init.pc == START && init.out == [] && k < |p.channels|
    ensures Run(init, f, n).Some? && Owned(p, Run(init, f, n).value.out)
    ensures var issued := Issues(p, Run(init, f, n).value.out, k);
            var (ch, v) := (p.channels[k], Served(p, init, f, n, k));
            var (once, cycle) := (Expansion(ch, ch.list), |Slots(ch, ch.list)|);
            if ch.dynamic then issued <= once && (v > cycle ==> issued == once)
            else issued <= Copies(once, v) && (v > m * cycle ==> Copies(once, m) <= issued)
  {
    hide AssembleAll, ProgramStmts, Loaded, Writes, PassTwo, Run, Due;
    hide Issues, Served, Owned, Sane, Expansion, Copies, Slots;
    SaneDelivers(p, base, was, init, f, n, k);
    ListsGiven(p, k);
    var (ch, v) := (p.channels[k], Served(p, init, f, n, k));
    if ch.dynamic {
      DynamicIsOnce(ch, v);
      DynamicIsOnce(ch, Before(v));
    } else {
      StaticIsCyclic(ch, v);
      if v > m * |Slots(ch, ch.list)| { CyclesDone(ch, m, Before(v)); }
    }
  }

  lemma ListsGiven(p: Program, k: nat)
    requires Sane(p) && k < |p.channels|
    ensures p.channels[k].list != []
  {
  }

  /** The words of a loaded program: a NOP at 0, the services one after another from 1 on, the
      NOPs and the jump back to 1, and the constants. */
  lemma ProgramWords(p: Program, init: State, k: nat)
    requires ValidProgram(p) && MainLoop.Boot(p, init) && k < |p.channels|
    ensures WordsAt(init.mem, 0, [0])
    ensures WordsAt(init.mem, Tail(p), seq(p.pads, _ => 0) + [0x1A00_0001])
    ensures WordsAt(init.mem, p.constants, [0, 0, 0xFFFF_FFFF, 3, 4])
    ensures var (ch, at) := (p.channels[k], SiteOf(p, k));
            WordsAt(init.mem, at.code, if ch.fourWord then Listing4(ch, at) else Listing3(ch, at))
  {
    hide Frame, Programmed, Stored, Separate, Listing4, Listing3, Tail, WordsAt;
    FrameWords(p, init.mem);
    SitesSeparate(p, k);
    assert WellFormed(p.channels[k]);
    if p.channels[k].fourWord {
      Fragment4Words(init.mem, p.channels[k], SiteOf(p, k));
    } else {
      Fragment3Words(init.mem, p.channels[k], SiteOf(p, k));
    }
  }

  lemma FrameWords(p: Program, mem: seq<Word>)
    requires Frame(p, mem)
    ensures WordsAt(mem, 0, [0])
    ensures WordsAt(mem, Tail(p), seq(p.pads, _ => 0) + [0x1A00_0001])
    ensures WordsAt(mem, p.constants, [0, 0, 0xFFFF_FFFF, 3, 4])
  {
    hide Encode, Decode, Tail;
    NamedWords(0, MAIN);
    InstructionWords(0, 0, 0, 0);
    EncodeDecode(mem[0]);
    CodeIsWords(mem, Tail(p), TailCode(p), seq(p.pads, _ => 0) + [0x1A00_0001]);
  }

  /** The 30 words of the service in cont_block_dma.c. */
  lemma ContBlockWords(init: State)
    requires MainLoop.Boot(CONT_BLOCK, init)
    ensures WordsAt(init.mem, 1,
              [0x1722_001F, 0x1D00_001F, 0x2400_0202, 0x2000_0204, 0x1000_000C,
               0x4300_0003, 0x5000_0204, 0x2000_0204, 0x1800_0017, 0x4300_0000, 0x5000_0206,
               0x2100_0102, 0x4000_0206, 0xF300_0002, 0x1300_0013, 0x1000_0013, 0x8400_0001, 0xF000_0100,
               0xA200_0204, 0x6000_1000, 0x5000_0206, 0x1000_001E,
               0x2500_0104, 0x2000_0203, 0x2100_0102, 0x1000_001D, 0x2000_0200, 0x2400_0201,
               0xA200_0203, 0xA300_0202])
    ensures WordsAt(init.mem, 31, [0, 0x1A00_0001])
  {
    hide MainLoop.Boot, WordsAt;
    ContBlockSane();
    ContBlockEnd();
    ProgramWords(CONT_BLOCK, init, 0);
    ContBlockListing();
  }

  lemma ContBlockListing()
    ensures CONT_BLOCK.channels[0] == BLOCK_CHANNEL && SiteOf(CONT_BLOCK, 0) == Site(1, 0x200, 0x100)
    ensures Tail(CONT_BLOCK) == 31 && seq(CONT_BLOCK.pads, _ => 0) + [0x1A00_0001] == [0, 0x1A00_0001]
    ensures Listing4(BLOCK_CHANNEL, Site(1, 0x200, 0x100)) ==
              [0x1722_001F, 0x1D00_001F, 0x2400_0202, 0x2000_0204, 0x1000_000C,
               0x4300_0003, 0x5000_0204, 0x2000_0204, 0x1800_0017, 0x4300_0000, 0x5000_0206,
               0x2100_0102, 0x4000_0206, 0xF300_0002, 0x1300_0013, 0x1000_0013, 0x8400_0001, 0xF000_0100,
               0xA200_0204, 0x6000_1000, 0x5000_0206, 0x1000_001E,
               0x2500_0104, 0x2000_0203, 0x2100_0102, 0x1000_001D, 0x2000_0200, 0x2400_0201,
               0xA200_0203, 0xA300_0202]
  {
    assert Pow2(0) == 1;
    var chs := CONT_BLOCK.channels;
    assert CodeStart(chs, 0) == 1 && CodeStart(chs, 1) == 31;
  }

  lemma SgDmaSane()
    ensures Sane(SG_DMA)
  {
    var chs := SG_DMA.channels;
    assert chs[0].base[8] == '0' && chs[1].base[8] == '1';
    assert CodeStart(chs, 0) == 1 && CodeStart(chs, 1) == 33 && CodeStart(chs, 2) == 51;
    assert DataStart(chs, 0x200, 0) == 0x200 && DataStart(chs, 0x200, 1) == 0x218 && DataStart(chs, 0x200, 2) == 0x228;
    GoodBasesSane(SG_DMA);
  }

  lemma ContBlockSane()
    ensures Sane(CONT_BLOCK)
  {
    var chs := CONT_BLOCK.channels;
    assert CodeStart(chs, 0) == 1 && CodeStart(chs, 1) == 31;
    assert DataStart(chs, 0x200, 0) == 0x200 && DataStart(chs, 0x200, 1) == 0x214;
    GoodBasesSane(CONT_BLOCK);
  }

  /** One cycle of the contiguous-block list moves 2 MB, every byte once. */
  lemma ContBlockMoves2MB(x: nat)
    ensures Touches(Expansion(BLOCK_CHANNEL, BLOCK_LIST), x)
         == Inside(x, 0x8765_4321_FF10_00C8, 0x8765_4321_FF10_00C8 + 0x20_0000)
  {
    hide Expansion, Touches;
    var start := 0x8765_4321_FF10_00C8;
    assert BLOCK_LIST[..2] == [BLOCK_LIST[0], BLOCK_LIST[1]];
    assert BLOCK_LIST[..2][..1] == [BLOCK_LIST[0]];
    assert Contiguous(BLOCK_CHANNEL, [], start, start);
    assert Contiguous(BLOCK_CHANNEL, [BLOCK_LIST[0]], start, BLOCK_LIST[1].addr);
    assert Contiguous(BLOCK_CHANNEL, [BLOCK_LIST[0], BLOCK_LIST[1]], start, BLOCK_LIST[2].addr);
    ContiguousTiles(BLOCK_CHANNEL, BLOCK_LIST, start, start + 0x20_0000, x);
  }

  /** One cycle of its list takes 513 visits. */
  lemma ContBlockSlots()
    ensures |Slots(BLOCK_CHANNEL, BLOCK_LIST)| == 513
  {
    var (ch, l) := (BLOCK_CHANNEL, BLOCK_LIST);
    assert l[..2] == [l[0], l[1]] && l[..2][..1] == [l[0]] && l[..2][..1][..0] == [];
    assert |EntrySlots(ch, l[0])| == 1 && |EntrySlots(ch, l[1])| == 511 && |EntrySlots(ch, l[2])| == 1;
    assert Slots(ch, []) == [];
    assert |Slots(ch, [l[0]])| == 1;
    assert |Slots(ch, [l[0], l[1]])| == 512;
  }

  /** What cont_block_dma.c waits for. Assembled, written out and started, with the condition
      line asking for service and the queue taking commands whenever the channel is visited,
      the sequencer has issued, after at most 16417 steps, all transfers of the 2 MB block,
      then the event, and no other command. */
  lemma ContBlockFinishes(base: Long, was: seq<Word>, init: State, f: Inputs) returns (n: nat)
    requires base % 4 == 0 && base + 4 * RAM_SIZE <= LONG_LIMIT
    requires var r := AssembleAll(BLANK, ProgramStmts(CONT_BLOCK));
             r.Going? ==> Loaded(Writes(base, PassTwo(r.st)), base, was, init.mem)
    requires init.pc == START && init.out == [] && NeverSkipped(CONT_BLOCK, init, f, 1, 0)
    ensures n <= 16417 && Run(init, f, n).Some? && Owned(CONT_BLOCK, Run(init, f, n).value.out)
    ensures var issued := Issues(CONT_BLOCK, Run(init, f, n).value.out, 0);
            && issued == Expansion(BLOCK_CHANNEL, BLOCK_LIST) && issued != []
            && issued[|issued| - 1] == Event(BLOCK_CHANNEL) && OnlyTransfers(issued[..|issued| - 1])
  {
    hide AssembleAll, ProgramStmts, Loaded, Writes, PassTwo, Boot.CleanLabels, Success.Short, Labels, MainLoop.Boot;
    hide Run, Issues, Owned, NeverSkipped, Expansion, OnlyTransfers, ValidProgram, Slots, Due, Served;
    ContBlockSane();
    ContBlockSlots();
    ContBlockEnd();
    Success.AssemblySucceeds(CONT_BLOCK);
    Booted(CONT_BLOCK, base, AssembleAll(BLANK, ProgramStmts(CONT_BLOCK)).st, was, init);
    n := ExpansionIssued(CONT_BLOCK, init, f, 0);
    SafeAlways(CONT_BLOCK, init, f, n, 0);
    EventComesLast(BLOCK_CHANNEL, BLOCK_LIST);
  }

  lemma ContBlockEnd()
    ensures CodeEnd(CONT_BLOCK) == 33 && |CONT_BLOCK.channels| == 1 && CONT_BLOCK.channels[0] == BLOCK_CHANNEL
  {
    var chs := CONT_BLOCK.channels;
    assert CodeStart(chs, 0) == 1 && CodeStart(chs, 1) == 31;
  }

  /** What the two channels of sg_dma.c transfer: 8 times 0x80 bytes in four pairs, and 4 times
      0x80 bytes from the top down, each followed by the event. */
  lemma SgDmaTransfers()
    ensures Expansion(SG_DMA.channels[0], SG_DMA.channels[0].list) ==
            [Dma(0x8765_4321_200F_0000, 0x1_0080), Dma(0x8765_4321_200F_0080, 0x1_0080),
             Dma(0x8765_4321_200F_1000, 0x1_0080), Dma(0x8765_4321_200F_1080, 0x1_0080),
             Dma(0x8765_4321_200F_2000, 0x1_0080), Dma(0x8765_4321_200F_2080, 0x1_0080),
             Dma(0x8765_4321_200F_3000, 0x8001_0080), Dma(0x8765_4321_200F_3080, 0x8001_0080), Signal(0, 1, 1)]
    ensures Expansion(SG_DMA.channels[1], SG_DMA.channels[1].list) ==
            [Dma(0xBB00_0000_4008_7000, 0x8_0080), Dma(0xBB00_0000_4008_6000, 0x8_0080),
             Dma(0xBB00_0000_4008_5000, 0x8_0080), Dma(0xBB00_0000_4008_4000, 0x8008_0080), Signal(0, 1, 1)]
  {
    TransfersOf0();
    TransfersOf1();
  }

  lemma TransfersOf0()
    ensures Expansion(SG_DMA.channels[0], SG_LIST_0) ==
            [Dma(0x8765_4321_200F_0000, 0x1_0080), Dma(0x8765_4321_200F_0080, 0x1_0080),
             Dma(0x8765_4321_200F_1000, 0x1_0080), Dma(0x8765_4321_200F_1080, 0x1_0080),
             Dma(0x8765_4321_200F_2000, 0x1_0080), Dma(0x8765_4321_200F_2080, 0x1_0080),
             Dma(0x8765_4321_200F_3000, 0x8001_0080), Dma(0x8765_4321_200F_3080, 0x8001_0080), Signal(0, 1, 1)]
  {
    hide Repetitions;
    var (ch, l) := (SG_DMA.channels[0], SG_LIST_0);
    assert Pow2(0) == 1;
    EntryMeans(ch, l[..1]);
    EntryMeans(ch, l[..2]);
    EntryMeans(ch, l[..3]);
    EntryMeans(ch, l);
    assert l[..1][..0] == [] && l[..2][..1] == l[..1] && l[..3][..2] == l[..2] && l[..4] == l;
  }

  lemma TransfersOf1()
    ensures Expansion(SG_DMA.channels[1], SG_LIST_1) ==
            [Dma(0xBB00_0000_4008_7000, 0x8_0080), Dma(0xBB00_0000_4008_6000, 0x8_0080),
             Dma(0xBB00_0000_4008_5000, 0x8_0080), Dma(0xBB00_0000_4008_4000, 0x8008_0080), Signal(0, 1, 1)]
  {
    hide Repetitions, Slot;
    var (ch, l) := (SG_DMA.channels[1], SG_LIST_1);
    assert Pow2(0) == 1;
    forall i | 0 <= i < 4
      ensures Repetitions(ch, l[i], 1) == [Dma(l[i].addr, l[i].ctl)] + if i == 3 then [Signal(0, 1, 1)] else []
    {
      OneRepetition(ch, l[i]);
    }
    assert l[..1][..0] == [] && l[..2][..1] == l[..1] && l[..3][..2] == l[..2] && l[..4] == l;
    assert Expansion(ch, l[..1]) == Repetitions(ch, l[0], 1);
    assert Expansion(ch, l[..2]) == Repetitions(ch, l[0], 1) + Repetitions(ch, l[1], 1);
    assert Expansion(ch, l[..3]) == Repetitions(ch, l[0], 1) + Repetitions(ch, l[1], 1) + Repetitions(ch, l[2], 1);
  }

  lemma OneRepetition(ch: Channel, e: SgEntry)
    requires !ch.fourWord && e.ctl != 0
    ensures Repetitions(ch, e, 1) ==
            [Dma(e.addr, e.ctl)] + if e.ctl >= 0x8000_0000 then [Signal(0, 1, Pow2(ch.eventReg))] else []
  {
    hide Slot, Pow2;
    SlotMeans(ch, e, 0);
    StepOn(ch, e, 0);
    assert Repetitions(ch, e, 0) == [];
  }
}
