/** The microcode vdma_service.c emits for one channel, with its labels replaced by
    addresses, and the layout of the channel's data block. */
module Microcode {
  import opened Words
  import opened SeqCode
  import opened Sequencer
  import opened ListWalk

  /** Where a channel's fragment, its data block and the constant ZERO are. The constants
      MINUS1, THREE and FOUR follow ZERO, which takes two words. */
  datatype Site = Site(code: nat, data: nat, zero: nat)

  function MinusOne(at: Site): nat { at.zero + 2 }

  /** The constant to add to the list pointer: THREE or FOUR. */
  function StrideAt(ch: Channel, at: Site): nat { at.zero + if ch.fourWord then 4 else 3 }

  function Stride(ch: Channel): nat { if ch.fourWord then 4 else 3 }

  /** Words of a data block up to list entry `i`. */
  function Offset(ch: Channel, i: nat): nat { if ch.fourWord then 8 + 4 * i else 4 + 3 * i }

  function DataLength(ch: Channel): nat { Offset(ch, |ch.list|) }

  /** Address of list entry `i`. */
  function EntryAt(ch: Channel, at: Site, i: nat): nat { at.data + Offset(ch, i) }

  function ClearLength(ch: Channel): nat { if ch.dynamic then 2 else 0 }

  // Offsets of the blocks within a fragment.
  function ClearAt(ch: Channel): nat { if ch.fourWord then 22 else 8 }

  function NextAt(ch: Channel): (a: nat)
    ensures a >= if ch.fourWord then 22 else 8
  {
    ClearAt(ch) + ClearLength(ch)
  }

  function CodeLength(ch: Channel): (n: nat)
    ensures n >= if ch.fourWord then 30 else 16
  {
    NextAt(ch) + 8
  }

  function QueueFull(ch: Channel): nat {
    if ch.direction == 'p' then PDM_CMD_QUEUE_FULL_HI else LDM_CMD_QUEUE_FULL_HI
  }

  /** The 4-word service ignores its `condition` argument. */
  function SkipCondition(ch: Channel): nat { if ch.fourWord then EXT_COND_LO else ch.condition }

  /** A visit does nothing: servicing is not required at its first step, or the command
      queue is full at its second. */
  predicate Skips(ch: Channel, f: Inputs, n: nat) {
    || (ch.extCond in f(n).ext) == (SkipCondition(ch) == EXT_COND_HI)
    || (if ch.direction == 'p' then f(n + 1).pdmFull else f(n + 1).ldmFull)
  }

  function CheckCode(ch: Channel, at: Site): seq<Instr> {
    var end := at.code + CodeLength(ch);
    [Jmp(SkipCondition(ch), ch.extCond, end), Jmp(QueueFull(ch), 0, end)]
  }

  function Issue3Code(ch: Channel, at: Site): seq<Instr> {
    [LoadRb(at.data + 2), LoadSysAddr(RB, 0), LoadXferCtl(RB, 2), Jmp(C_LO, 0, at.code + 8),
     SigEvent(0, 1, Pow2(ch.eventReg)), LoadXferCtl(IM, at.zero)]
  }

  function Resume4Code(ch: Channel, at: Site): seq<Instr> {
    [LoadRb(at.data + 2), LoadRa(at.data + 4), Jmp(RA_NEQZ, 0, at.code + 11)]
  }

  function Load4Code(ch: Channel, at: Site): seq<Instr> {
    [LoadSysAddr(RB, 3), StoreSysAddr(IM, at.data + 4), LoadRa(at.data + 4),
     Jmp(RA_EQZ, 0, at.code + NextAt(ch)),
     LoadSysAddr(RB, 0), StoreSysAddr(IM, at.data + 6)]
  }

  function Issue4Code(ch: Channel, at: Site): seq<Instr> {
    [AddRa(MinusOne(at)), LoadSysAddr(IM, at.data + 6), LoadXferCtl(RB, 2),
     Jmp(C_LO, 0, at.code + 18), Jmp(RA_NEQZ, 0, at.code + 18),
     SigEvent(0, 1, Pow2(ch.eventReg)), LoadXferCtl(IM, at.zero)]
  }

  function Save4Code(ch: Channel, at: Site): seq<Instr> {
    [StoreRa(at.data + 4), AddSysAddr(ch.step), StoreSysAddr(IM, at.data + 6),
     Jmp(RA_NEQZ, 0, at.code + CodeLength(ch) - 1)]
  }

  function ClearCode(ch: Channel, at: Site): seq<Instr> {
    if ch.dynamic then [LoadSysAddr(IM, at.zero), StoreSysAddr(RB, if ch.fourWord then 2 else 1)] else []
  }

  function AdvanceCode(ch: Channel, at: Site): seq<Instr> {
    [AddRb(StrideAt(ch, at)), LoadRa(at.data + 3), AddRa(MinusOne(at)),
     Jmp(RA_NEQZ, 0, at.code + NextAt(ch) + 6), LoadRa(at.data), LoadRb(at.data + 1),
     StoreRa(at.data + 3), StoreRb(at.data + 2)]
  }

  /** The whole fragment is in memory, block by block. */
  predicate Programmed(mem: seq<Word>, ch: Channel, at: Site) {
    && CodeAt(mem, at.code, CheckCode(ch, at))
    && (if ch.fourWord then
          && CodeAt(mem, at.code + 2, Resume4Code(ch, at))
          && CodeAt(mem, at.code + 5, Load4Code(ch, at))
          && CodeAt(mem, at.code + 11, Issue4Code(ch, at))
          && CodeAt(mem, at.code + 18, Save4Code(ch, at))
        else CodeAt(mem, at.code + 2, Issue3Code(ch, at)))
    && CodeAt(mem, at.code + ClearAt(ch), ClearCode(ch, at))
    && CodeAt(mem, at.code + NextAt(ch), AdvanceCode(ch, at))
  }

  /** The constants ZERO, MINUS1, THREE and FOUR. */
  predicate Constants(mem: seq<Word>, zero: nat) {
    && zero + 4 < |mem|
    && mem[zero] == 0 && mem[zero + 1] == 0 && mem[zero + 2] == 0xFFFF_FFFF
    && mem[zero + 3] == 3 && mem[zero + 4] == 4
  }

  /** SgEntry `i` of the list in memory. */
  predicate EntryIn(mem: seq<Word>, ch: Channel, a: nat, e: SgEntry) {
    && a + Stride(ch) < |mem|
    && mem[a] == Low(e.addr) && mem[a + 1] == High(e.addr) && mem[a + 2] == e.ctl
    && (ch.fourWord ==> mem[a + 3] == e.rpt)
  }

  /** The data block holds the walk `w`: _SIZE, _BASE, _INDEX, _CNT, for a 4-word list
      _RPT and _SYSA, and the list. */
  predicate Stored(mem: seq<Word>, ch: Channel, at: Site, w: Walk) {
    && InList(w) && |w.list| == |ch.list|
    && at.data + DataLength(ch) < |mem|
    && mem[at.data] == |w.list|
    && mem[at.data + 1] == EntryAt(ch, at, 0)
    && mem[at.data + 2] == EntryAt(ch, at, w.index)
    && mem[at.data + 3] == |w.list| - w.index
    && (if ch.fourWord then
          mem[at.data + 4] == w.rpt && mem[at.data + 6] == Low(w.sysa) && mem[at.data + 7] == High(w.sysa)
        else w.rpt == 0)
    && forall i | 0 <= i < |w.list| :: EntryIn(mem, ch, EntryAt(ch, at, i), w.list[i])
  }

  predicate Disjoint(a: nat, m: nat, b: nat, n: nat) { a + m <= b || b + n <= a }

  /** Fragment, data block and constants do not overlap and lie below the last RAM word. */
  predicate Separate(ch: Channel, at: Site) {
    && at.code + CodeLength(ch) < RAM_SIZE && at.data + DataLength(ch) < RAM_SIZE && at.zero + 5 < RAM_SIZE
    && Disjoint(at.code, CodeLength(ch), at.data, DataLength(ch))
    && Disjoint(at.code, CodeLength(ch), at.zero, 5)
    && Disjoint(at.data, DataLength(ch), at.zero, 5)
  }

  /** The arguments the services are called with. `step` is the immediate of ADD_SYS_ADDR,
      taken below 0x8000 so that its sign does not matter. */
  predicate WellFormed(ch: Channel) {
    && ch.list != [] && ch.eventReg < 16 && ch.extCond < 0x100 && ch.step < 0x8000
    && (ch.condition == EXT_COND_LO || ch.condition == EXT_COND_HI)
  }

  /** Nothing outside the data block has changed. */
  predicate OnlyData(mem: seq<Word>, mem': seq<Word>, ch: Channel, at: Site) {
    && |mem'| == |mem|
    && forall a | 0 <= a < |mem| && !(at.data <= a < at.data + DataLength(ch)) :: mem'[a] == mem[a]
  }
}
