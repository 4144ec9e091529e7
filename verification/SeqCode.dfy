/** Instruction words of the DMA sequencer (lib/vdma_seqcode.h). */
module SeqCode {
  import opened Words

  const IM := 0
  const RA := 2
  const RB := 3

  // Condition codes of JMP. Bit 3 is the polarity, the low three bits select the line.
  const RA_EQZ := 0x8
  const RA_NEQZ := 0x0
  const ALWAYS := 0xA
  const C_LO := 0x3
  const PDM_CMD_QUEUE_FULL_HI := 0xC
  const LDM_CMD_QUEUE_FULL_HI := 0xD
  const EXT_COND_HI := 0xF
  const EXT_COND_LO := 0x7
  const EXT_COND_0 := 34

  datatype Instr =
    | Nop
    | LoadSysAddr(r: nat, addr: nat)
    | StoreSysAddr(r: nat, addr: nat)
    | AddSysAddr(data: nat)
    | AddSysAddrI(addr: nat)
    | LoadXferCtl(r: nat, addr: nat)
    | LoadRa(addr: nat)
    | AddRa(addr: nat)
    | LoadRb(addr: nat)
    | AddRb(addr: nat)
    | StoreRa(addr: nat)
    | StoreRb(addr: nat)
    | Jmp(c: nat, ext: nat, addr: nat)
    | SigEvent(s: nat, a: nat, mask: nat)
    | WaitEvent(en: nat, state: nat)
  {
    /** The instruction has an address operand, so that a label can be attached to it. */
    predicate Addressed() {
      !(Nop? || AddSysAddr? || SigEvent? || WaitEvent?)
    }

    /** The same instruction with another address operand. */
    function At(target: nat): Instr
      requires Addressed()
    {
      match this
      case LoadSysAddr(r, _) => LoadSysAddr(r, target)
      case StoreSysAddr(r, _) => StoreSysAddr(r, target)
      case AddSysAddrI(_) => AddSysAddrI(target)
      case LoadXferCtl(r, _) => LoadXferCtl(r, target)
      case LoadRa(_) => LoadRa(target)
      case AddRa(_) => AddRa(target)
      case LoadRb(_) => LoadRb(target)
      case AddRb(_) => AddRb(target)
      case StoreRa(_) => StoreRa(target)
      case StoreRb(_) => StoreRb(target)
      case Jmp(c, e, _) => Jmp(c, e, target)
    }

    /** Every operand fits its field. */
    predicate InRange() {
      match this
      case Nop => true
      case AddSysAddr(d) => d < 0x10000
      case LoadSysAddr(r, a) => r < 4 && a < 0x10000
      case StoreSysAddr(r, a) => r < 4 && a < 0x10000
      case LoadXferCtl(r, a) => r < 4 && a < 0x10000
      case Jmp(c, e, a) => c < 16 && e < 0x100 && a < 0x10000
      case SigEvent(s, a, m) => s < 2 && a < 2 && m < 0x10000
      case WaitEvent(en, st) => en < 0x1000 && st < 0x1000
      case AddSysAddrI(a) => a < 0x10000
      case LoadRa(a) => a < 0x10000
      case AddRa(a) => a < 0x10000
      case LoadRb(a) => a < 0x10000
      case AddRb(a) => a < 0x10000
      case StoreRa(a) => a < 0x10000
      case StoreRb(a) => a < 0x10000
    }
  }

  function Or3(a: Word, b: Word, c: Word): (w: Word)
    ensures w == Or(Or(a, b), c)
  {
    Powers();
    OrFits(a, b, 32);
    OrFits(Or(a, b), c, 32);
    Or(Or(a, b), c)
  }

  /** The encoding macros: an opcode or-ed with masked, shifted operands. */
  function Encode(i: Instr): Word {
    match i
    case Nop => 0
    case LoadSysAddr(r, a) => Or3(0x40000000, (r % 4) * 0x1000000, a % 0x10000)
    case StoreSysAddr(r, a) => Or3(0x50000000, (r % 4) * 0x1000000, a % 0x10000)
    case AddSysAddr(d) => Or3(0x60000000, 0, d % 0x10000)
    case AddSysAddrI(a) => Or3(0xE0000000, 0, a % 0x10000)
    case LoadXferCtl(r, a) => Or3(0xF0000000, (r % 4) * 0x1000000, a % 0x10000)
    case LoadRa(a) => Or3(0x20000000, 0, a % 0x10000)
    case AddRa(a) => Or3(0x21000000, 0, a % 0x10000)
    case LoadRb(a) => Or3(0x24000000, 0, a % 0x10000)
    case AddRb(a) => Or3(0x25000000, 0, a % 0x10000)
    case StoreRa(a) => Or3(0xA2000000, 0, a % 0x10000)
    case StoreRb(a) => Or3(0xA3000000, 0, a % 0x10000)
    case Jmp(c, e, a) =>
      Or3(Or3(0x10000000, (c % 16) * 0x1000000, (e % 0x100) * 0x10000), a % 0x10000, 0)
    case SigEvent(s, a, m) =>
      Or3(Or3(0x80000000, (s % 2) * 0x8000000, (a % 2) * 0x4000000), m % 0x10000, 0)
    case WaitEvent(en, st) => Or3(0x90000000, (en % 0x1000) * 0x1000, st % 0x1000)
  }

  /** The strict decoder: a word with a bit set outside the fields of its opcode is
      no instruction. */
  function Decode(w: Word): Option<Instr> {
    DecodeFields(w / 0x1000000, w / 0x10000 % 0x100, w % 0x10000)
  }

  /** Decoding the top byte, the next byte and the low half of a word. */
  function DecodeFields(hi: nat, mid: nat, low: nat): Option<Instr> {
    var op := hi / 16;
    var r := hi % 16;
    if op == 1 then Some(Jmp(r, mid, low))
    else if hi == 0x90 then Some(WaitEvent(mid * 16 + low / 0x1000, low % 0x1000))
    else if mid != 0 then None
    else if hi == 0 then (if low == 0 then Some(Nop) else None)
    else if hi == 0x20 then Some(LoadRa(low))
    else if hi == 0x21 then Some(AddRa(low))
    else if hi == 0x24 then Some(LoadRb(low))
    else if hi == 0x25 then Some(AddRb(low))
    else if hi == 0xA2 then Some(StoreRa(low))
    else if hi == 0xA3 then Some(StoreRb(low))
    else if hi == 0x60 then Some(AddSysAddr(low))
    else if hi == 0xE0 then Some(AddSysAddrI(low))
    else if op == 4 && r < 4 then Some(LoadSysAddr(r, low))
    else if op == 5 && r < 4 then Some(StoreSysAddr(r, low))
    else if op == 15 && r < 4 then Some(LoadXferCtl(r, low))
    else if op == 8 && r % 4 == 0 then Some(SigEvent(r / 8, r / 4 % 2, low))
    else None
  }

  /** The three fields an instruction occupies. */
  function Fields(i: Instr): (nat, nat, nat) {
    match i
    case Nop => (0, 0, 0)
    case LoadSysAddr(r, a) => (0x40 + r, 0, a)
    case StoreSysAddr(r, a) => (0x50 + r, 0, a)
    case AddSysAddr(d) => (0x60, 0, d)
    case AddSysAddrI(a) => (0xE0, 0, a)
    case LoadXferCtl(r, a) => (0xF0 + r, 0, a)
    case LoadRa(a) => (0x20, 0, a)
    case AddRa(a) => (0x21, 0, a)
    case LoadRb(a) => (0x24, 0, a)
    case AddRb(a) => (0x25, 0, a)
    case StoreRa(a) => (0xA2, 0, a)
    case StoreRb(a) => (0xA3, 0, a)
    case Jmp(c, e, a) => (0x10 + c, e, a)
    case SigEvent(s, a, m) => (0x80 + s * 8 + a * 4, 0, m)
    case WaitEvent(en, st) => (0x90, en / 16, en % 16 * 0x1000 + st)
  }

  function Sum(f: (nat, nat, nat)): nat { f.0 * 0x1000000 + f.1 * 0x10000 + f.2 }

  /** A field of 12, 16, 24, 27 or 28 bits below a multiple of its size. */
  lemma OrField(q: nat, b: nat)
    ensures b < 0x1000 ==> Or(q * 0x1000, b) == q * 0x1000 + b
    ensures b < 0x10000 ==> Or(q * 0x10000, b) == q * 0x10000 + b
    ensures b < 0x1000000 ==> Or(q * 0x1000000, b) == q * 0x1000000 + b
    ensures b < 0x8000000 ==> Or(q * 0x8000000, b) == q * 0x8000000 + b
    ensures b < 0x10000000 ==> Or(q * 0x10000000, b) == q * 0x10000000 + b
  {
    Powers();
    if b < Pow2(12) { OrAdds(q, b, 12); }
    if b < Pow2(16) { OrAdds(q, b, 16); }
    if b < Pow2(24) { OrAdds(q, b, 24); }
    if b < Pow2(27) { OrAdds(q, b, 27); }
    if b < Pow2(28) { OrAdds(q, b, 28); }
  }

  lemma OrOpcode(hi: nat, a: nat)
    requires hi < 0x100 && a < 0x10000
    ensures Or3(hi * 0x1000000, 0, a) == hi * 0x1000000 + a
  {
    OrZero(hi * 0x1000000);
    OrField(hi * 0x100, a);
  }

  /** Opcode, register field and 16-bit address. */
  lemma OrAddress(op: nat, r: nat, a: nat)
    requires op < 16 && r < 16 && a < 0x10000
    ensures Or3(op * 0x10000000, r * 0x1000000, a) == op * 0x10000000 + r * 0x1000000 + a
  {
    OrField(op, r * 0x1000000);
    OrField(op * 0x1000 + r * 0x100, a);
  }

  lemma EncodeJmp(c: nat, e: nat, a: nat)
    requires c < 16 && e < 0x100 && a < 0x10000
    ensures Encode(Jmp(c, e, a)) == 0x10000000 + c * 0x1000000 + e * 0x10000 + a
  {
    hide Or;
    OrField(1, c * 0x1000000);
    OrField(0x10 + c, e * 0x10000);
    OrField(0x1000 + c * 0x100 + e, a);
    OrZero(0x10000000 + c * 0x1000000 + e * 0x10000 + a);
  }

  lemma EncodeSigEvent(s: nat, a: nat, m: nat)
    requires s < 2 && a < 2 && m < 0x10000
    ensures Encode(SigEvent(s, a, m)) == 0x80000000 + s * 0x8000000 + a * 0x4000000 + m
  {
    hide Or;
    OrField(8, s * 0x8000000);
    OrField(16 + s, a * 0x4000000);
    OrField(0x8000 + s * 0x800 + a * 0x400, m);
    OrZero(0x80000000 + s * 0x8000000 + a * 0x4000000 + m);
  }

  lemma EncodeWaitEvent(en: nat, st: nat)
    requires en < 0x1000 && st < 0x1000
    ensures Encode(WaitEvent(en, st)) == 0x90000000 + en * 0x1000 + st
  {
    hide Or;
    OrField(0x90, en * 0x1000);
    OrField(0x90000 + en, st);
  }

  lemma EncodeRegister(i: Instr)
    requires i.InRange() && (i.LoadRa? || i.AddRa? || i.LoadRb? || i.AddRb? || i.StoreRa? || i.StoreRb?)
    ensures Encode(i) == Sum(Fields(i))
  {
    hide Or, Or3;
    OrOpcode(Fields(i).0, i.addr);
  }

  lemma EncodeAddressed(i: Instr)
    requires i.InRange()
    requires i.LoadSysAddr? || i.StoreSysAddr? || i.LoadXferCtl? || i.AddSysAddr? || i.AddSysAddrI?
    ensures Encode(i) == Sum(Fields(i))
  {
    hide Or, Or3;
    var (hi, _, low) := Fields(i);
    OrAddress(hi / 16, hi % 16, low);
  }

  lemma EncodeIsFields(i: Instr)
    requires i.InRange()
    ensures Encode(i) == Sum(Fields(i))
  {
    hide Or, Or3;
    match i
    case Nop =>
    case Jmp(c, e, a) => EncodeJmp(c, e, a);
    case SigEvent(s, a, m) => EncodeSigEvent(s, a, m);
    case WaitEvent(en, st) => EncodeWaitEvent(en, st);
    case _ =>
      hide Encode, Fields;
      if i.LoadSysAddr? || i.StoreSysAddr? || i.LoadXferCtl? || i.AddSysAddr? || i.AddSysAddrI? {
        EncodeAddressed(i);
      } else {
        EncodeRegister(i);
      }
  }

  lemma DecodeOfFields(i: Instr)
    requires i.InRange()
    ensures var (hi, mid, low) := Fields(i);
            hi < 0x100 && mid < 0x100 && low < 0x10000 && DecodeFields(hi, mid, low) == Some(i)
  {
  }

  lemma FieldsOfDecode(hi: nat, mid: nat, low: nat)
    requires hi < 0x100 && mid < 0x100 && low < 0x10000
    requires DecodeFields(hi, mid, low).Some?
    ensures var i := DecodeFields(hi, mid, low).value; i.InRange() && Fields(i) == (hi, mid, low)
  {
  }

  lemma SumSplits(hi: nat, mid: nat, low: nat, w: nat)
    requires mid < 0x100 && low < 0x10000 && w == Sum((hi, mid, low))
    ensures w / 0x1000000 == hi && w / 0x10000 % 0x100 == mid && w % 0x10000 == low
  {
    assert w / 0x10000 == hi * 0x100 + mid;
  }

  /** The decoder inverts every encoder, so no two instructions share a word. */
  lemma DecodeEncode(i: Instr)
    requires i.InRange()
    ensures Decode(Encode(i)) == Some(i)
  {
    hide Encode, Fields, DecodeFields;
    EncodeIsFields(i);
    DecodeOfFields(i);
    var (hi, mid, low) := Fields(i);
    SumSplits(hi, mid, low, Encode(i));
  }

  /** The decoder accepts nothing but encodings. */
  lemma EncodeDecode(w: Word)
    requires Decode(w).Some?
    ensures Decode(w).value.InRange() && Encode(Decode(w).value) == w
  {
    hide Encode, Fields, DecodeFields;
    FieldsOfDecode(w / 0x1000000, w / 0x10000 % 0x100, w % 0x10000);
    EncodeIsFields(Decode(w).value);
  }

  /** Or-ing an address into a pass-one word, whose operand is 0, fills in the operand
      and disturbs no other field. */
  lemma OrOperand(i: Instr, target: nat)
    requires i.InRange() && i.Addressed() && i == i.At(0) && target < 0x10000
    ensures Or(Encode(i), target) == Encode(i.At(target))
  {
    hide Encode, Or;
    EncodeIsFields(i);
    EncodeIsFields(i.At(target));
    var (hi, mid, _) := Fields(i);
    OrField(hi * 0x100 + mid, target);
  }
}
