/** The Wishbone slave with four control registers (dummy_ctrl_regs.vhd): a process clocked
    at every rising edge, with signals that change after the edge, and a reset. */
module CtrlRegs {
  import opened Words

  datatype Register = Reg1 | Reg2 | Reg3 | Led | Unknown    // Unknown: not four defined levels

  /** The inputs at one rising edge; `cyc`, `stb` and `we` tell whether the signal is '1'. The
      byte selects have no effect. */
  datatype Input = Input(reset: bool, cyc: bool, stb: bool, we: bool, addr: Register, data: Word)

  const ACKS := 10

  /** The signals. Reading register 1 leaves undefined values in `rddata`. */
  datatype Signals = Signals(
    ack: seq<bool>, busy: bool, rddata: Option<Word>, wr1: bool, reg2: Word, reg3: Word, led: Word)
  {
    function Stored(r: Register): Option<Word> {
      match r
      case Reg2 => Some(reg2)
      case Reg3 => Some(reg3)
      case Led => Some(led)
      case _ => None
    }
  }

  class Slave {
    var ack: seq<bool>
    var busy: bool
    var rddata: Option<Word>
    var wr1: bool
    var reg2: Word
    var reg3: Word
    var led: Word

    predicate Valid()
      reads this
    {
      |ack| == ACKS
    }

    function View(): Signals
      reads this
    {
      Signals(ack, busy, rddata, wr1, reg2, reg3, led)
    }

    constructor ()
      ensures Valid() && View() == Cleared()
    {
      ack, busy, rddata := seq(ACKS, _ => false), false, Some(0);
      wr1, reg2, reg3, led := false, 0, 0, 0;
    }

    /** The process, run at a rising edge or under reset. */
    method Clock(i: Input)
      requires Valid()
      modifies this
      ensures Valid() && View() == Next(old(View()), i)
    {
      if i.reset {
        ack, busy, rddata := seq(ACKS, _ => false), false, Some(0);
        wr1, reg2, reg3, led := false, 0, 0, 0;
        return;
      }
      var last := ack[0];
      ack := ack[1..] + [false];
      if busy {
        if last {
          wr1, busy := false, false;
        } else {
          wr1 := false;
        }
      } else if i.cyc && i.stb {
        match i.addr {
          case Reg1 =>
            if i.we { wr1 := true; } else { rddata := None; }
          case Reg2 =>
            if i.we { reg2 := i.data; } else { rddata := Some(reg2); }
          case Reg3 =>
            if i.we { reg3 := i.data; } else { rddata := Some(reg3); }
          case Led =>
            if i.we { led := i.data; } else { rddata := Some(led); }
          case Unknown =>
        }
        ack, busy := ack[0 := true], true;
      }
    }
  }

  function Cleared(): Signals {
    Signals(seq(ACKS, _ => false), false, Some(0), false, 0, 0, 0)
  }

  /** The signals after an edge. */
  function Next(s: Signals, i: Input): (t: Signals)
    requires |s.ack| == ACKS
    ensures |t.ack| == ACKS
  {
    if i.reset then Cleared()
    else
      var shifted := s.ack[1..] + [false];
      if s.busy then s.(ack := shifted, wr1 := false, busy := s.busy && !s.ack[0])
      else if i.cyc && i.stb then Answer(s, i).(ack := shifted[0 := true], busy := true)
      else s.(ack := shifted)
  }

  /** The effect of an access on the registers. */
  function Answer(s: Signals, i: Input): Signals {
    if i.we then
      match i.addr
      case Reg1 => s.(wr1 := true)
      case Reg2 => s.(reg2 := i.data)
      case Reg3 => s.(reg3 := i.data)
      case Led => s.(led := i.data)
      case Unknown => s
    else if i.addr == Unknown then s
    else s.(rddata := s.Stored(i.addr))
  }

  /** The signals before edge `n` of a run that begins with a reset. */
  function At(f: nat -> Input, n: nat): (s: Signals)
    ensures |s.ack| == ACKS
  {
    if n == 0 then Cleared() else Next(At(f, n - 1), f(n - 1))
  }

  // ---- The bus as its master sees it ----

  /** Edge `n` starts an access: one is asked for, and edge n - 1 has not started one. */
  predicate Starts(f: nat -> Input, n: nat) {
    !f(n).reset && f(n).cyc && f(n).stb && (n > 0 ==> !Starts(f, n - 1))
  }

  predicate Writes(f: nat -> Input, n: nat, r: Register) {
    Starts(f, n) && f(n).we && f(n).addr == r
  }

  predicate Reads(f: nat -> Input, n: nat) {
    Starts(f, n) && !f(n).we && f(n).addr != Unknown
  }

  /** The word last written to register `r` before edge `n`, 0 after a reset. */
  function Written(f: nat -> Input, n: nat, r: Register): Word {
    if n == 0 || f(n - 1).reset then 0
    else if Writes(f, n - 1, r) then f(n - 1).data
    else Written(f, n - 1, r)
  }

  /** The data bus before edge `n`: what the last read has found. */
  function Found(f: nat -> Input, n: nat): Option<Word> {
    if n == 0 || f(n - 1).reset then Some(0)
    else if Reads(f, n - 1) then (if f(n - 1).addr == Reg1 then None else Some(Written(f, n - 1, f(n - 1).addr)))
    else Found(f, n - 1)
  }

  /** Signals that say what the bus has seen before edge `n`. */
  predicate Agrees(f: nat -> Input, n: nat, s: Signals) {
    && |s.ack| == 10
    && (s.ack[0] <==> n > 0 && Starts(f, n - 1))
    && (s.busy <==> s.ack[0])
    && (forall k | 1 <= k < 10 :: !s.ack[k])
    && (s.wr1 <==> n > 0 && Writes(f, n - 1, Reg1))
    && s.reg2 == Written(f, n, Reg2) && s.reg3 == Written(f, n, Reg3) && s.led == Written(f, n, Led)
    && s.rddata == Found(f, n)
  }

  /** In every run, the acknowledge is set exactly after the edges that start an access, each
      for one cycle; the pulse of register 1 comes exactly after its writes; the registers hold
      the words last written; and the data bus shows what the last read has found. */
  lemma {:induction false} SlaveAnswers(f: nat -> Input, n: nat)
    ensures Agrees(f, n, At(f, n))
  {
    if n > 0 {
      SlaveAnswers(f, n - 1);
      Follows(f, n - 1, At(f, n - 1));
    }
  }

  lemma Follows(f: nat -> Input, n: nat, s: Signals)
    requires Agrees(f, n, s)
    ensures Agrees(f, n + 1, Next(s, f(n)))
  {
    var t := Next(s, f(n));
    assert Starts(f, n) <==> !f(n).reset && f(n).cyc && f(n).stb && !s.busy;
    if !f(n).reset {
      assert forall k | 1 <= k < ACKS :: !t.ack[k];
    }
  }

  /** A read of register 2, 3 or LED is acknowledged with the word last written to it. */
  lemma ReadsLastWrite(f: nat -> Input, n: nat)
    requires Reads(f, n) && f(n).addr != Reg1
    ensures var s := At(f, n + 1); s.ack[0] && s.rddata == Some(Written(f, n, f(n).addr))
  {
    SlaveAnswers(f, n + 1);
  }

  /** A request held for two edges without a reset is acknowledged, by edge n + 2 at the
      latest, and never in two cycles in a row. */
  lemma Responds(f: nat -> Input, n: nat)
    requires forall k | n <= k <= n + 1 :: !f(k).reset && f(k).cyc && f(k).stb
    ensures At(f, n + 1).ack[0] != At(f, n + 2).ack[0]
  {
    SlaveAnswers(f, n + 1);
    SlaveAnswers(f, n + 2);
  }

  /** Edges before `n` that start an access. */
  function Accesses(f: nat -> Input, n: nat): nat {
    if n == 0 then 0 else Accesses(f, n - 1) + if Starts(f, n - 1) then 1 else 0
  }

  /** Cycles up to edge `n` that acknowledge. */
  function Acknowledged(f: nat -> Input, n: nat): nat {
    if n == 0 then 0 else Acknowledged(f, n - 1) + if At(f, n).ack[0] then 1 else 0
  }

  /** As many acknowledges as accesses. */
  lemma {:induction false} OneAckEach(f: nat -> Input, n: nat)
    ensures Acknowledged(f, n) == Accesses(f, n)
  {
    if n > 0 {
      OneAckEach(f, n - 1);
      SlaveAnswers(f, n);
    }
  }

  /** A write to register 1 gives one pulse of one cycle, in the cycle that acknowledges it. */
  lemma PulseOnce(f: nat -> Input, n: nat)
    requires Writes(f, n, Reg1)
    ensures At(f, n + 1).wr1 && At(f, n + 1).ack[0]
    ensures !At(f, n + 2).wr1 && !At(f, n + 2).ack[0]
  {
    SlaveAnswers(f, n + 1);
    SlaveAnswers(f, n + 2);
  }
}
