/** The words of the microcode, written out as numbers: what vdma_process prints for a service
    call. Nothing here refers to the names of registers, conditions or opcodes. */
module Listing {
  import opened Words
  import opened SeqCode
  import opened Sequencer
  import opened ListWalk
  import opened Microcode

  /** Every instruction as a number. */
  lemma InstructionWords(r: nat, c: nat, e: nat, a: nat)
    requires r < 4 && c < 16 && e < 0x100 && a < 0x10000
    ensures Encode(Nop) == 0
    ensures Encode(LoadSysAddr(r, a)) == 0x4000_0000 + r * 0x100_0000 + a
    ensures Encode(StoreSysAddr(r, a)) == 0x5000_0000 + r * 0x100_0000 + a
    ensures Encode(LoadXferCtl(r, a)) == 0xF000_0000 + r * 0x100_0000 + a
    ensures Encode(AddSysAddr(a)) == 0x6000_0000 + a && Encode(AddSysAddrI(a)) == 0xE000_0000 + a
    ensures Encode(LoadRa(a)) == 0x2000_0000 + a && Encode(AddRa(a)) == 0x2100_0000 + a
    ensures Encode(LoadRb(a)) == 0x2400_0000 + a && Encode(AddRb(a)) == 0x2500_0000 + a
    ensures Encode(StoreRa(a)) == 0xA200_0000 + a && Encode(StoreRb(a)) == 0xA300_0000 + a
    ensures Encode(Jmp(c, e, a)) == 0x1000_0000 + c * 0x100_0000 + e * 0x1_0000 + a
  {
    hide Encode;
    EncodeIsFields(Nop);
    EncodeIsFields(LoadSysAddr(r, a));
    EncodeIsFields(StoreSysAddr(r, a));
    EncodeIsFields(LoadXferCtl(r, a));
    EncodeIsFields(AddSysAddr(a));
    EncodeIsFields(AddSysAddrI(a));
    EncodeIsFields(LoadRa(a));
    EncodeIsFields(AddRa(a));
    EncodeIsFields(LoadRb(a));
    EncodeIsFields(AddRb(a));
    EncodeIsFields(StoreRa(a));
    EncodeIsFields(StoreRb(a));
    EncodeIsFields(Jmp(c, e, a));
  }

  /** The events. */
  lemma EventWords(s: nat, x: nat, m: nat, en: nat, st: nat)
    requires s < 2 && x < 2 && m < 0x10000 && en < 0x1000 && st < 0x1000
    ensures Encode(SigEvent(s, x, m)) == 0x8000_0000 + s * 0x800_0000 + x * 0x400_0000 + m
    ensures Encode(WaitEvent(en, st)) == 0x9000_0000 + en * 0x1000 + st
  {
    EncodeSigEvent(s, x, m);
    EncodeWaitEvent(en, st);
  }

  /** An operand that does not fit its field is cut to its low bits, and touches no other
      field. */
  lemma OperandsCut(r: nat, c: nat, e: nat, a: nat)
    ensures Encode(LoadSysAddr(r, a)) == Encode(LoadSysAddr(r % 4, a % 0x10000))
    ensures Encode(StoreSysAddr(r, a)) == Encode(StoreSysAddr(r % 4, a % 0x10000))
    ensures Encode(LoadXferCtl(r, a)) == Encode(LoadXferCtl(r % 4, a % 0x10000))
    ensures Encode(Jmp(c, e, a)) == Encode(Jmp(c % 16, e % 0x100, a % 0x10000))
  {
    hide Or, Or3;
    CutTwice(r, 4);
    CutTwice(c, 16);
    CutTwice(e, 0x100);
    CutTwice(a, 0x10000);
  }

  lemma AddressesCut(a: nat)
    ensures Encode(AddSysAddr(a)) == Encode(AddSysAddr(a % 0x10000))
    ensures Encode(AddSysAddrI(a)) == Encode(AddSysAddrI(a % 0x10000))
    ensures Encode(LoadRa(a)) == Encode(LoadRa(a % 0x10000)) && Encode(AddRa(a)) == Encode(AddRa(a % 0x10000))
    ensures Encode(LoadRb(a)) == Encode(LoadRb(a % 0x10000)) && Encode(AddRb(a)) == Encode(AddRb(a % 0x10000))
    ensures Encode(StoreRa(a)) == Encode(StoreRa(a % 0x10000)) && Encode(StoreRb(a)) == Encode(StoreRb(a % 0x10000))
  {
    hide Or, Or3;
    CutTwice(a, 0x10000);
  }

  lemma EventsCut(s: nat, x: nat, m: nat, en: nat, st: nat)
    ensures Encode(SigEvent(s, x, m)) == Encode(SigEvent(s % 2, x % 2, m % 0x10000))
    ensures Encode(WaitEvent(en, st)) == Encode(WaitEvent(en % 0x1000, st % 0x1000))
  {
    hide Or, Or3;
    CutTwice(s, 2);
    CutTwice(x, 2);
    CutTwice(m, 0x10000);
    CutTwice(en, 0x1000);
    CutTwice(st, 0x1000);
  }

  lemma CutTwice(x: nat, n: nat)
    requires n > 0
    ensures x % n % n == x % n
  {
  }

  /** The named registers and conditions in the words they occur in. */
  lemma NamedWords(e: nat, a: nat)
    requires e < 0x100 && a < 0x10000
    ensures Encode(LoadSysAddr(IM, a)) == 0x4000_0000 + a && Encode(LoadSysAddr(RA, a)) == 0x4200_0000 + a
    ensures Encode(LoadSysAddr(RB, a)) == 0x4300_0000 + a
    ensures Encode(StoreSysAddr(IM, a)) == 0x5000_0000 + a && Encode(StoreSysAddr(RB, a)) == 0x5300_0000 + a
    ensures Encode(LoadXferCtl(IM, a)) == 0xF000_0000 + a && Encode(LoadXferCtl(RB, a)) == 0xF300_0000 + a
    ensures Encode(Jmp(RA_NEQZ, 0, a)) == 0x1000_0000 + a && Encode(Jmp(RA_EQZ, 0, a)) == 0x1800_0000 + a
    ensures Encode(Jmp(C_LO, 0, a)) == 0x1300_0000 + a && Encode(Jmp(ALWAYS, 0, a)) == 0x1A00_0000 + a
    ensures Encode(Jmp(PDM_CMD_QUEUE_FULL_HI, 0, a)) == 0x1C00_0000 + a
    ensures Encode(Jmp(LDM_CMD_QUEUE_FULL_HI, 0, a)) == 0x1D00_0000 + a
    ensures Encode(Jmp(EXT_COND_LO, e, a)) == 0x1700_0000 + e * 0x1_0000 + a
    ensures Encode(Jmp(EXT_COND_HI, e, a)) == 0x1F00_0000 + e * 0x1_0000 + a
    ensures Encode(Jmp(EXT_COND_LO, EXT_COND_0, a)) == 0x1722_0000 + a
  {
    hide Encode;
    InstructionWords(IM, RA_NEQZ, 0, a);
    InstructionWords(RA, RA_EQZ, 0, a);
    InstructionWords(RB, C_LO, 0, a);
    InstructionWords(IM, ALWAYS, 0, a);
    InstructionWords(IM, PDM_CMD_QUEUE_FULL_HI, 0, a);
    InstructionWords(IM, LDM_CMD_QUEUE_FULL_HI, 0, a);
    InstructionWords(IM, EXT_COND_LO, e, a);
    InstructionWords(IM, EXT_COND_HI, e, a);
    InstructionWords(IM, EXT_COND_LO, EXT_COND_0, a);
  }

  /** A piece of the RAM. */
  predicate WordsAt(mem: seq<Word>, a: nat, words: seq<int>) {
    a + |words| <= |mem| && mem[a..a + |words|] == words
  }

  lemma CodeIsWords(mem: seq<Word>, a: nat, code: seq<Instr>, words: seq<int>)
    requires CodeAt(mem, a, code) && |words| == |code|
    requires forall i | 0 <= i < |code| :: words[i] == Encode(code[i])
    ensures WordsAt(mem, a, words)
  {
    hide Decode, Encode;
    forall i | 0 <= i < |code| ensures mem[a + i] == words[i] {
      assert Decode(mem[a + i]) == Some(code[i]);
      EncodeDecode(mem[a + i]);
    }
  }

  /** The two tests: jumps on the condition line and on the queue. */
  function CheckListing(ch: Channel, at: Site): seq<int> {
    var end := at.code + if ch.fourWord then (if ch.dynamic then 32 else 30) else if ch.dynamic then 18 else 16;
    [(if ch.fourWord || ch.condition == 0x7 then 0x1700_0000 else 0x1F00_0000) + ch.extCond * 0x1_0000 + end,
     (if ch.direction == 'p' then 0x1C00_0000 else 0x1D00_0000) + end]
  }

  function ResumeListing(ch: Channel, at: Site): seq<int> {
    [0x2400_0000 + at.data + 2, 0x2000_0000 + at.data + 4, 0x1000_0000 + at.code + 11]
  }

  function LoadListing(ch: Channel, at: Site): seq<int> {
    [0x4300_0003, 0x5000_0000 + at.data + 4, 0x2000_0000 + at.data + 4,
     0x1800_0000 + at.code + (if ch.dynamic then 24 else 22), 0x4300_0000, 0x5000_0000 + at.data + 6]
  }

  function Issue4Listing(ch: Channel, at: Site): seq<int> {
    [0x2100_0000 + at.zero + 2, 0x4000_0000 + at.data + 6, 0xF300_0002, 0x1300_0000 + at.code + 18,
     0x1000_0000 + at.code + 18, 0x8400_0000 + Pow2(ch.eventReg), 0xF000_0000 + at.zero]
  }

  function SaveListing(ch: Channel, at: Site): seq<int> {
    [0xA200_0000 + at.data + 4, 0x6000_0000 + ch.step, 0x5000_0000 + at.data + 6,
     0x1000_0000 + at.code + (if ch.dynamic then 31 else 29)]
  }

  function Issue3Listing(ch: Channel, at: Site): seq<int> {
    [0x2400_0000 + at.data + 2, 0x4300_0000, 0xF300_0002, 0x1300_0000 + at.code + 8,
     0x8400_0000 + Pow2(ch.eventReg), 0xF000_0000 + at.zero]
  }

  function ClearListing(ch: Channel, at: Site): seq<int> {
    if ch.dynamic then [0x4000_0000 + at.zero, if ch.fourWord then 0x5300_0002 else 0x5300_0001] else []
  }

  function AdvanceListing(ch: Channel, at: Site): seq<int> {
    var next := (if ch.fourWord then 22 else 8) + if ch.dynamic then 2 else 0;
    [0x2500_0000 + at.zero + (if ch.fourWord then 4 else 3), 0x2000_0000 + at.data + 3, 0x2100_0000 + at.zero + 2,
     0x1000_0000 + at.code + next + 6, 0x2000_0000 + at.data, 0x2400_0000 + at.data + 1,
     0xA200_0000 + at.data + 3, 0xA300_0000 + at.data + 2]
  }

  function Listing4(ch: Channel, at: Site): seq<int> {
    CheckListing(ch, at) + ResumeListing(ch, at) + LoadListing(ch, at) + Issue4Listing(ch, at)
    + SaveListing(ch, at) + ClearListing(ch, at) + AdvanceListing(ch, at)
  }

  function Listing3(ch: Channel, at: Site): seq<int> {
    CheckListing(ch, at) + Issue3Listing(ch, at) + ClearListing(ch, at) + AdvanceListing(ch, at)
  }

  predicate Placed(ch: Channel, at: Site) {
    && WellFormed(ch) && Separate(ch, at)
  }

  lemma Joined(mem: seq<Word>, a: nat, w1: seq<int>, w2: seq<int>)
    requires WordsAt(mem, a, w1) && WordsAt(mem, a + |w1|, w2)
    ensures WordsAt(mem, a, w1 + w2)
  {
    assert mem[a..a + |w1 + w2|] == mem[a..a + |w1|] + mem[a + |w1|..a + |w1| + |w2|];
  }

  lemma CheckIsListed(ch: Channel, at: Site)
    requires Placed(ch, at)
    ensures var (code, words) := (CheckCode(ch, at), CheckListing(ch, at));
            |code| == |words| && forall i | 0 <= i < |code| :: words[i] == Encode(code[i])
  {
    hide Encode, DataLength;
    var end := at.code + CodeLength(ch);
    NamedWords(ch.extCond, end);
  }

  lemma ResumeIsListed(ch: Channel, at: Site)
    requires Placed(ch, at) && ch.fourWord
    ensures var (code, words) := (Resume4Code(ch, at), ResumeListing(ch, at));
            |code| == |words| && forall i | 0 <= i < |code| :: words[i] == Encode(code[i])
  {
    hide Encode;
    InstructionWords(0, 0, 0, at.data + 2);
    InstructionWords(0, 0, 0, at.data + 4);
    NamedWords(0, at.code + 11);
  }

  lemma LoadIsListed(ch: Channel, at: Site)
    requires Placed(ch, at) && ch.fourWord
    ensures var (code, words) := (Load4Code(ch, at), LoadListing(ch, at));
            |code| == |words| && forall i | 0 <= i < |code| :: words[i] == Encode(code[i])
  {
    hide Encode;
    NamedWords(0, 3);
    NamedWords(0, at.data + 4);
    InstructionWords(0, 0, 0, at.data + 4);
    NamedWords(0, at.code + NextAt(ch));
    NamedWords(0, 0);
    NamedWords(0, at.data + 6);
  }

  lemma EventMask(ch: Channel)
    requires WellFormed(ch)
    ensures Pow2(ch.eventReg) < 0x10000
  {
    Powers();
    PowRises(ch.eventReg, 16);
  }

  lemma {:induction false} PowRises(k: nat, n: nat)
    requires k < n
    ensures Pow2(k) < Pow2(n)
  {
    if k < n - 1 { PowRises(k, n - 1); }
  }

  lemma Issue4IsListed(ch: Channel, at: Site)
    requires Placed(ch, at) && ch.fourWord
    ensures var (code, words) := (Issue4Code(ch, at), Issue4Listing(ch, at));
            |code| == |words| && forall i | 0 <= i < |code| :: words[i] == Encode(code[i])
  {
    hide Encode, Pow2;
    InstructionWords(0, 0, 0, at.zero + 2);
    NamedWords(0, at.data + 6);
    NamedWords(0, 2);
    NamedWords(0, at.code + 18);
    EventMask(ch);
    EventWords(0, 1, Pow2(ch.eventReg), 0, 0);
    NamedWords(0, at.zero);
  }

  lemma SaveIsListed(ch: Channel, at: Site)
    requires Placed(ch, at) && ch.fourWord
    ensures var (code, words) := (Save4Code(ch, at), SaveListing(ch, at));
            |code| == |words| && forall i | 0 <= i < |code| :: words[i] == Encode(code[i])
  {
    hide Encode;
    InstructionWords(0, 0, 0, at.data + 4);
    InstructionWords(0, 0, 0, ch.step);
    NamedWords(0, at.data + 6);
    NamedWords(0, at.code + CodeLength(ch) - 1);
  }

  lemma Issue3IsListed(ch: Channel, at: Site)
    requires Placed(ch, at) && !ch.fourWord
    ensures var (code, words) := (Issue3Code(ch, at), Issue3Listing(ch, at));
            |code| == |words| && forall i | 0 <= i < |code| :: words[i] == Encode(code[i])
  {
    hide Encode, Pow2;
    InstructionWords(0, 0, 0, at.data + 2);
    NamedWords(0, 0);
    NamedWords(0, 2);
    NamedWords(0, at.code + 8);
    EventMask(ch);
    EventWords(0, 1, Pow2(ch.eventReg), 0, 0);
    NamedWords(0, at.zero);
  }

  lemma ClearIsListed(ch: Channel, at: Site)
    requires Placed(ch, at)
    ensures var (code, words) := (ClearCode(ch, at), ClearListing(ch, at));
            |code| == |words| && forall i | 0 <= i < |code| :: words[i] == Encode(code[i])
  {
    hide Encode;
    NamedWords(0, at.zero);
    NamedWords(0, 1);
    NamedWords(0, 2);
  }

  lemma AdvanceIsListed(ch: Channel, at: Site)
    requires Placed(ch, at)
    ensures var (code, words) := (AdvanceCode(ch, at), AdvanceListing(ch, at));
            |code| == |words| && forall i | 0 <= i < |code| :: words[i] == Encode(code[i])
  {
    hide Encode;
    InstructionWords(0, 0, 0, StrideAt(ch, at));
    InstructionWords(0, 0, 0, at.data + 3);
    InstructionWords(0, 0, 0, at.zero + 2);
    NamedWords(0, at.code + NextAt(ch) + 6);
    InstructionWords(0, 0, 0, at.data);
    InstructionWords(0, 0, 0, at.data + 1);
    InstructionWords(0, 0, 0, at.data + 2);
  }

  /** The words of a 4-word service: 30, or 32 with a dynamic list. */
  lemma Fragment4Words(mem: seq<Word>, ch: Channel, at: Site)
    requires Programmed(mem, ch, at) && Placed(ch, at) && ch.fourWord
    ensures WordsAt(mem, at.code, Listing4(ch, at)) && |Listing4(ch, at)| == if ch.dynamic then 32 else 30
  {
    hide CodeAt, Encode, WordsAt, Separate, CheckCode, Resume4Code, Load4Code, Issue4Code, Save4Code, AdvanceCode;
    var (w1, w2, w3, w4) := (CheckListing(ch, at), ResumeListing(ch, at), LoadListing(ch, at), Issue4Listing(ch, at));
    var (w5, w6, w7) := (SaveListing(ch, at), ClearListing(ch, at), AdvanceListing(ch, at));
    CheckIsListed(ch, at);
    ResumeIsListed(ch, at);
    LoadIsListed(ch, at);
    Issue4IsListed(ch, at);
    SaveIsListed(ch, at);
    ClearIsListed(ch, at);
    AdvanceIsListed(ch, at);
    CodeIsWords(mem, at.code, CheckCode(ch, at), w1);
    CodeIsWords(mem, at.code + 2, Resume4Code(ch, at), w2);
    CodeIsWords(mem, at.code + 5, Load4Code(ch, at), w3);
    CodeIsWords(mem, at.code + 11, Issue4Code(ch, at), w4);
    CodeIsWords(mem, at.code + 18, Save4Code(ch, at), w5);
    CodeIsWords(mem, at.code + ClearAt(ch), ClearCode(ch, at), w6);
    CodeIsWords(mem, at.code + NextAt(ch), AdvanceCode(ch, at), w7);
    Joined(mem, at.code, w1, w2);
    Joined(mem, at.code, w1 + w2, w3);
    Joined(mem, at.code, w1 + w2 + w3, w4);
    Joined(mem, at.code, w1 + w2 + w3 + w4, w5);
    Joined(mem, at.code, w1 + w2 + w3 + w4 + w5, w6);
    Joined(mem, at.code, w1 + w2 + w3 + w4 + w5 + w6, w7);
  }

  /** The words of a 3-word service: 16, or 18 with a dynamic list. */
  lemma Fragment3Words(mem: seq<Word>, ch: Channel, at: Site)
    requires Programmed(mem, ch, at) && Placed(ch, at) && !ch.fourWord
    ensures WordsAt(mem, at.code, Listing3(ch, at)) && |Listing3(ch, at)| == if ch.dynamic then 18 else 16
  {
    hide CodeAt, Encode, WordsAt, Separate, CheckCode, Issue3Code, AdvanceCode;
    var (w1, w2) := (CheckListing(ch, at), Issue3Listing(ch, at));
    var (w3, w4) := (ClearListing(ch, at), AdvanceListing(ch, at));
    CheckIsListed(ch, at);
    Issue3IsListed(ch, at);
    ClearIsListed(ch, at);
    AdvanceIsListed(ch, at);
    CodeIsWords(mem, at.code, CheckCode(ch, at), w1);
    CodeIsWords(mem, at.code + 2, Issue3Code(ch, at), w2);
    CodeIsWords(mem, at.code + ClearAt(ch), ClearCode(ch, at), w3);
    CodeIsWords(mem, at.code + NextAt(ch), AdvanceCode(ch, at), w4);
    Joined(mem, at.code, w1, w2);
    Joined(mem, at.code, w1 + w2, w3);
    Joined(mem, at.code, w1 + w2 + w3, w4);
  }

  /** The words of a data block before its first visit: 8 words and 4 per entry, or 4 and 3. */
  lemma DataWords(mem: seq<Word>, ch: Channel, at: Site, i: nat)
    requires Stored(mem, ch, at, Begin(ch)) && i < |ch.list|
    ensures mem[at.data] == |ch.list| && mem[at.data + 3] == |ch.list|
    ensures var list := at.data + if ch.fourWord then 8 else 4;
            mem[at.data + 1] == list && mem[at.data + 2] == list
    ensures ch.fourWord ==> mem[at.data + 4] == 0 && mem[at.data + 6] == 0 && mem[at.data + 7] == 0
    ensures var a := at.data + if ch.fourWord then 8 + 4 * i else 4 + 3 * i;
            && mem[a] == ch.list[i].addr % 0x1_0000_0000 && mem[a + 1] == ch.list[i].addr / 0x1_0000_0000
            && mem[a + 2] == ch.list[i].ctl && (ch.fourWord ==> mem[a + 3] == ch.list[i].rpt)
  {
    assert EntryIn(mem, ch, EntryAt(ch, at, i), ch.list[i]);
  }

  /** When a visit is skipped: for a 4-word list, whatever `condition` is, and for a 3-word list
      with condition code 7, if the condition line is low; with code 15 if it is high; and if
      the queue of the channel's direction is full at the second step. */
  lemma SkipsMeans(ch: Channel, f: Inputs, n: nat)
    requires WellFormed(ch)
    ensures Skips(ch, f, n) <==>
              || (if ch.fourWord || ch.condition == 0x7 then ch.extCond !in f(n).ext else ch.extCond in f(n).ext)
              || (if ch.direction == 'p' then f(n + 1).pdmFull else f(n + 1).ldmFull)
    ensures ch.condition == 0x7 || ch.condition == 0xF
  {
  }
}
