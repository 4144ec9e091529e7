/** The DMA sequencer that runs the microcode, one instruction per step. Its hardware is
    not part of the repository; README.md lists what is assumed of it. External condition
    lines and the two command queues are arbitrary inputs, sampled anew at every step. */
module Sequencer {
  import opened Words
  import opened SeqCode

  const RAM_SIZE := 2048  // VDMA_DRAM_SIZE

  /** What the sequencer sees of its surroundings during one step. */
  datatype Env = Env(ext: set<nat>, pdmFull: bool, ldmFull: bool)

  /** One sample for every step of an endless run. */
  type Inputs = nat -> Env

  datatype Command = Dma(addr: Long, ctl: Word) | Signal(s: nat, a: nat, mask: nat)

  /** A command together with the address of the instruction that issued it. */
  datatype Issued = Issued(pc: nat, command: Command)

  datatype State = State(
    pc: nat, ra: Word, rb: Word, sys: Long, c: bool,
    mem: seq<Word>, out: seq<Issued>)

  function Next(s: State): State { s.(pc := s.pc + 1) }

  /** The word address of an operand: absolute, or relative to RA or RB. */
  function Effective(s: State, r: nat, addr: nat): Option<nat> {
    if r == IM then Some(addr)
    else if r == RA then Some(s.ra + addr)
    else if r == RB then Some(s.rb + addr)
    else None
  }

  /** Transfer-control word `ctl` written with system address `sys`: bit 31 goes to the
      C flag, and every word but the all-zero one starts a transfer. */
  function Start(sys: Long, ctl: Word): seq<Command> {
    if ctl == 0 then [] else [Dma(sys, ctl)]
  }

  predicate CBit(ctl: Word) { ctl >= 0x8000_0000 }

  function Tag(pc: nat, cs: seq<Command>): seq<Issued> { seq(|cs|, i requires 0 <= i < |cs| => Issued(pc, cs[i])) }

  /** Whether JMP takes the branch; None for the two condition codes without a name. */
  function Taken(s: State, c: nat, ext: nat, e: Env): Option<bool> {
    var want := c >= 8;
    var line := c % 8;
    if line == 0 then Some((s.ra == 0) == want)
    else if line == 1 then Some((s.rb == 0) == want)
    else if line == 2 then Some(want)
    else if line == 3 then Some(s.c == want)
    else if line == 4 then Some(e.pdmFull == want)
    else if line == 5 then Some(e.ldmFull == want)
    else if line == 7 then Some((ext in e.ext) == want)
    else None
  }

  /** The effect of one instruction; None where the model says nothing (an address
      outside the RAM, an unnamed register or condition, WAIT_EVENT, ADD_SYS_ADDR_I). */
  function Exec(i: Instr, s: State, e: Env): Option<State> {
    match i
    case Nop => Some(Next(s))
    case LoadSysAddr(r, a) =>
      var ea := Effective(s, r, a);
      if ea.Some? && ea.value + 1 < |s.mem|
      then Some(Next(s).(sys := Join(s.mem[ea.value], s.mem[ea.value + 1]))) else None
    case StoreSysAddr(r, a) =>
      var ea := Effective(s, r, a);
      if ea.Some? && ea.value + 1 < |s.mem|
      then Some(Next(s).(mem := s.mem[ea.value := Low(s.sys)][ea.value + 1 := High(s.sys)])) else None
    case AddSysAddr(d) => Some(Next(s).(sys := (s.sys + d) % LONG_LIMIT))
    case LoadXferCtl(r, a) =>
      var ea := Effective(s, r, a);
      if ea.Some? && ea.value < |s.mem|
      then
        var ctl := s.mem[ea.value];
        Some(Next(s).(c := CBit(ctl), out := s.out + Tag(s.pc, Start(s.sys, ctl))))
      else None
    case LoadRa(a) => if a < |s.mem| then Some(Next(s).(ra := s.mem[a])) else None
    case AddRa(a) => if a < |s.mem| then Some(Next(s).(ra := (s.ra + s.mem[a]) % WORD_LIMIT)) else None
    case LoadRb(a) => if a < |s.mem| then Some(Next(s).(rb := s.mem[a])) else None
    case AddRb(a) => if a < |s.mem| then Some(Next(s).(rb := (s.rb + s.mem[a]) % WORD_LIMIT)) else None
    case StoreRa(a) => if a < |s.mem| then Some(Next(s).(mem := s.mem[a := s.ra])) else None
    case StoreRb(a) => if a < |s.mem| then Some(Next(s).(mem := s.mem[a := s.rb])) else None
    case Jmp(c, ext, a) =>
      var t := Taken(s, c, ext, e);
      if t.None? then None else Some(s.(pc := if t.value then a else s.pc + 1))
    case SigEvent(v, a, m) => Some(Next(s).(out := s.out + Tag(s.pc, [Signal(v, a, m)])))
    case WaitEvent(_, _) => None
    case AddSysAddrI(_) => None
  }

  function Step(s: State, e: Env): Option<State> {
    if s.pc < |s.mem| && Decode(s.mem[s.pc]).Some?
    then Exec(Decode(s.mem[s.pc]).value, s, e) else None
  }

  /** The state after `n` steps; None once a step was undefined. */
  function Run(init: State, f: Inputs, n: nat): Option<State> {
    if n == 0 then Some(init)
    else
      var r := Run(init, f, n - 1);
      if r.None? then None else Step(r.value, f(n - 1))
  }

  predicate Holds(mem: seq<Word>, a: nat, i: Instr) {
    a < |mem| && Decode(mem[a]) == Some(i)
  }

  /** A straight piece of code sits at `a`. */
  predicate CodeAt(mem: seq<Word>, a: nat, code: seq<Instr>) {
    a + |code| <= |mem| && forall i | 0 <= i < |code| :: Decode(mem[a + i]) == Some(code[i])
  }

  /** A run that has reached `s` at time `n` takes instruction `i` next. */
  lemma Take(init: State, f: Inputs, n: nat, s: State, i: Instr) returns (s': State)
    requires Run(init, f, n) == Some(s) && Holds(s.mem, s.pc, i) && Exec(i, s, f(n)).Some?
    ensures Run(init, f, n + 1) == Some(s') && Exec(i, s, f(n)) == Some(s')
  {
    s' := Exec(i, s, f(n)).value;
  }

  lemma StepAppends(s: State, e: Env)
    requires Step(s, e).Some?
    ensures s.out <= Step(s, e).value.out
  {
  }

  /** Commands are only ever appended. */
  lemma {:induction false} OutputGrows(init: State, f: Inputs, n: nat, m: nat)
    requires n <= m && Run(init, f, m).Some?
    ensures Run(init, f, n).Some? && Run(init, f, n).value.out <= Run(init, f, m).value.out
    decreases m
  {
    hide Step;
    if n < m {
      OutputGrows(init, f, n, m - 1);
      StepAppends(Run(init, f, m - 1).value, f(m - 1));
    }
  }
}
