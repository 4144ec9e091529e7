/** The two-pass assembler: pass one (lib/vdma_seqcode_lib.c) fills the descriptor RAM
    with words and symbolic operands, pass two (lib/maketest.c) resolves the operands and
    writes the image out as bus commands. */
module Assembler {
  import opened Words
  import opened SeqCode
  import opened Sequencer
  import BusModel

  const MAX_LABELS := 2048
  const MAX_LABEL_SIZE := 32
  const LABEL_TOO_LONG := -89
  const TOO_MANY_LABELS := -90
  const RAM_EXCEEDED := -91
  const OK := 0

  /** A word of descriptor RAM. A word nothing was put into has no operand, not even "". */
  datatype Cell = Cell(data: Word, operand: Option<string>)

  datatype Entry = Entry(name: string, address: nat)

  /** What the emitting functions do: vdma_org, vdma_label, or putting one word. */
  datatype Stmt = Org(address: nat) | Label(name: string) | Put(data: Word, operand: string)

  datatype AsmState = AsmState(dram: seq<Cell>, labels: seq<Entry>, pc: nat)

  datatype Outcome = Going(st: AsmState) | Exit(code: int)

  // ---- The emitting functions, as statements ----

  /** An instruction whose address is a label. */
  function Ins(i: Instr, operand: string): Stmt { Put(Encode(i), operand) }

  /** An instruction or constant without a label. */
  function Plain(data: Word): Stmt { Put(data, "") }

  function ConstantL(name: string): Stmt { Put(0, name) }

  /** vdma_constant_n64: low word first. */
  function ConstantN64(data: Long): seq<Stmt> { [Plain(Low(data)), Plain(High(data))] }

  // ---- Pass one as a function ----

  /** One statement. The process exits when a limit is passed; a word put outside the RAM
      is taken to end it in the same way as one put into its last word. */
  function Assemble(st: AsmState, s: Stmt): Outcome
    requires |st.dram| == RAM_SIZE
  {
    match s
    case Org(a) => Going(st.(pc := a))
    case Label(name) =>
      if |name| > MAX_LABEL_SIZE then Exit(LABEL_TOO_LONG)
      else if |st.labels| + 1 >= MAX_LABELS then Exit(TOO_MANY_LABELS)
      else Going(st.(labels := st.labels + [Entry(name, st.pc)]))
    case Put(data, operand) =>
      if st.pc + 1 >= RAM_SIZE then Exit(RAM_EXCEEDED)
      else Going(st.(dram := st.dram[st.pc := Cell(data, Some(operand))], pc := st.pc + 1))
  }

  function AssembleAll(st: AsmState, stmts: seq<Stmt>): (r: Outcome)
    requires |st.dram| == RAM_SIZE
    ensures r.Going? ==> |r.st.dram| == RAM_SIZE
    decreases |stmts|
  {
    if stmts == [] then Going(st)
    else
      match Assemble(st, stmts[0])
      case Going(st') => AssembleAll(st', stmts[1..])
      case Exit(code) => Exit(code)
  }

  const BLANK := AsmState(seq(RAM_SIZE, _ => Cell(0, None)), [], 0)

  // ---- Operands ----

  /** label_compare: the empty string matches nothing. */
  predicate LabelCompare(a: string, b: string) { a != "" && b != "" && a == b }

  /** vdma_label_lookup: the first declaration counts. */
  function Lookup(labels: seq<Entry>, name: string): Option<nat> {
    if labels == [] then None
    else if LabelCompare(name, labels[0].name) then Some(labels[0].address)
    else Lookup(labels[1..], name)
  }

  /** The value of the longest run of hex digits at the start of `s`, onto `high`. */
  function HexPrefix(s: string, high: nat): nat {
    if s == "" || HexDigit(s[0]).None? then high
    else HexPrefix(s[1..], high * 16 + HexDigit(s[0]).value)
  }

  /** An operand written as a number: 0x and at least one digit. */
  function Number(name: string): Option<nat> {
    if |name| > 2 && name[0] == '0' && (name[1] == 'x' || name[1] == 'X') && HexDigit(name[2]).Some?
    then Some(HexPrefix(name[2..], 0)) else None
  }

  /** What an operand stands for; an operand that is neither declared nor a number is
      reported and stands for 0. */
  function Target(labels: seq<Entry>, name: string): (t: nat)
    ensures t < 0x10000
  {
    match Lookup(labels, name)
    case Some(a) => a % 0x10000
    case None => if Number(name).Some? then Number(name).value % 0x10000 else 0
  }

  function OrIn(data: Word, t: nat): Word
    requires t < 0x10000
  {
    Powers();
    OrFits(data, t, 32);
    Or(data, t)
  }

  /** Pass two on one word. */
  function Resolve(labels: seq<Entry>, c: Cell): Cell {
    if c.operand == None || c.operand == Some("") then c
    else c.(data := OrIn(c.data, Target(labels, c.operand.value)))
  }

  /** The RAM after pass two. */
  function PassTwo(st: AsmState): (cells: seq<Cell>)
    ensures |cells| == |st.dram|
  {
    seq(|st.dram|, a requires 0 <= a < |st.dram| => Resolve(st.labels, st.dram[a]))
  }

  /** One write command per used word, in ascending order. */
  function Writes(base: Long, dram: seq<Cell>): seq<BusModel.Cmd> {
    if dram == [] then []
    else
      var a := |dram| - 1;
      Writes(base, dram[..a]) +
      if dram[a].operand == None then []
      else [BusModel.Write(BusModel.WordOf((base + 4 * a) % LONG_LIMIT), 0xF, dram[a].data, false)]
  }

  // ---- The program itself ----

  lemma {:induction false} AssembleConcat(st: AsmState, a: seq<Stmt>, b: seq<Stmt>)
    requires |st.dram| == RAM_SIZE
    ensures AssembleAll(st, a + b) ==
            if AssembleAll(st, a).Going? then AssembleAll(AssembleAll(st, a).st, b) else AssembleAll(st, a)
    decreases |a|
  {
    if a == [] {
      assert a + b == b;
    } else {
      assert (a + b)[0] == a[0] && (a + b)[1..] == a[1..] + b;
      if Assemble(st, a[0]).Going? {
        AssembleConcat(Assemble(st, a[0]).st, a[1..], b);
      }
    }
  }

  class Asm {
    const dram: array<Cell>
    const labels: array<Entry>
    var labelPointer: nat
    var programAddress: nat
    ghost var calls: seq<Stmt>  // every emitting call so far

    predicate Shaped()
      reads this
    {
      dram.Length == RAM_SIZE + 1 && labels.Length == MAX_LABELS && labelPointer < MAX_LABELS
    }

    function View(): AsmState
      requires Shaped()
      reads this, dram, labels
    {
      AsmState(dram[..RAM_SIZE], labels[..labelPointer], programAddress)
    }

    /** The state is what pass one makes of the calls so far. */
    ghost predicate Valid()
      reads this, dram, labels
    {
      Shaped() && AssembleAll(BLANK, calls) == Going(View())
    }

    /** maketest_init. */
    constructor ()
      ensures Valid() && calls == [] && programAddress == 0 && fresh(dram) && fresh(labels)
    {
      dram := new Cell[RAM_SIZE + 1](_ => Cell(0, None));
      labels := new Entry[MAX_LABELS](_ => Entry("", 0));
      labelPointer, programAddress, calls := 0, 0, [];
      new;
      assert View() == BLANK;
    }

    /** One call of an emitting function; a result other than OK is the exit status with
        which the process ends. */
    method Do(s: Stmt) returns (exit: int)
      requires Valid()
      modifies this, dram, labels
      ensures exit == OK ==> Valid() && calls == old(calls) + [s] && Assemble(old(View()), s) == Going(View())
      ensures exit != OK ==> AssembleAll(BLANK, old(calls) + [s]) == Exit(exit)
    {
      AssembleConcat(BLANK, calls, [s]);
      assert [s][1..] == [];
      calls := calls + [s];
      exit := OK;
      match s {
        case Org(a) =>
          programAddress := a;
        case Label(name) =>
          if |name| > MAX_LABEL_SIZE {
            return LABEL_TOO_LONG;
          }
          if labelPointer + 1 >= MAX_LABELS {
            return TOO_MANY_LABELS;
          }
          labels[labelPointer] := Entry(name, programAddress);
          labelPointer := labelPointer + 1;
        case Put(data, operand) =>
          if programAddress + 1 >= RAM_SIZE {
            return RAM_EXCEEDED;
          }
          dram[programAddress] := Cell(data, Some(operand));
          programAddress := programAddress + 1;
      }
    }

    /** A sequence of calls, up to the first exit. */
    method DoAll(stmts: seq<Stmt>) returns (exit: int)
      requires Valid()
      modifies this, dram, labels
      ensures exit == OK ==> Valid() && calls == old(calls) + stmts
      ensures exit != OK ==> AssembleAll(BLANK, old(calls) + stmts) == Exit(exit)
    {
      exit := OK;
      for i := 0 to |stmts|
        invariant Valid() && exit == OK && calls == old(calls) + stmts[..i]
      {
        exit := Do(stmts[i]);
        assert stmts[..i + 1] == stmts[..i] + [stmts[i]];
        assert old(calls) + stmts[..i + 1] == old(calls) + stmts[..i] + [stmts[i]];
        if exit != OK {
          AssembleConcat(BLANK, old(calls) + stmts[..i + 1], stmts[i + 1..]);
          assert old(calls) + stmts == old(calls) + stmts[..i + 1] + stmts[i + 1..];
          return;
        }
      }
    }

    /** vdma_label_lookup. */
    method LabelLookup(name: string) returns (found: bool, value: nat)
      requires Shaped()
      ensures found == Lookup(View().labels, name).Some?
      ensures found ==> value == Lookup(View().labels, name).value
    {
      for i := 0 to labelPointer
        invariant Lookup(View().labels, name) == Lookup(View().labels[i..], name)
      {
        assert View().labels[i..][1..] == View().labels[i + 1..];
        if LabelCompare(name, labels[i].name) {
          return true, labels[i].address;
        }
      }
      return false, 0;
    }

    /** Pass two on the word at `a`. */
    method ResolveAt(a: nat)
      requires Shaped() && a < RAM_SIZE
      modifies dram
      ensures dram[a] == Resolve(labels[..labelPointer], old(dram[a]))
      ensures forall i | 0 <= i <= RAM_SIZE && i != a :: dram[i] == old(dram[i])
    {
      var c := dram[a];
      if c.operand != None && c.operand != Some("") {
        var name := c.operand.value;
        var found, address := LabelLookup(name);
        if found {
          dram[a] := c.(data := OrIn(c.data, address % 0x10000));
        } else if Number(name).Some? {
          dram[a] := c.(data := OrIn(c.data, Number(name).value % 0x10000));
        } else {
          NothingIn(c.data);
        }
      }
    }

    /** vdma_process: pass two over the whole RAM, and the write commands for it. */
    method Process(base: Long) returns (cmds: seq<BusModel.Cmd>)
      requires Shaped()
      modifies this, dram
      ensures Shaped() && View() == AsmState(PassTwo(old(View())), old(View()).labels, RAM_SIZE)
      ensures cmds == Writes(base, PassTwo(old(View())))
    {
      hide Resolve, BusModel.WordOf;
      cmds := [];
      assert dram[..0] == [];
      for a := 0 to RAM_SIZE
        invariant Shaped() && labelPointer == old(labelPointer) && labels[..] == old(labels[..])
        invariant forall i | 0 <= i < a :: dram[i] == Resolve(labels[..labelPointer], old(dram[i]))
        invariant forall i | a <= i < RAM_SIZE :: dram[i] == old(dram[i])
        invariant cmds == Writes(base, dram[..a])
      {
        ghost var done := dram[..a];
        ResolveAt(a);
        assert dram[..a] == done;
        assert dram[..a + 1][..a] == done;
        if dram[a].operand != None {
          var c := BusModel.Xopr((base + 4 * a) % LONG_LIMIT, 0xF, dram[a].data, 0, false, 'w');
          cmds := cmds + c;
        }
      }
      assert dram[..RAM_SIZE] == PassTwo(old(View()));
      programAddress := RAM_SIZE;
    }
  }

  lemma NothingIn(data: Word)
    ensures OrIn(data, 0) == data
  {
    OrZero(data);
  }
}
