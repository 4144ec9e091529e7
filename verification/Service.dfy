/** The channel services (lib/vdma_service.c): what they emit, with symbolic labels. */
module Service {
  import opened Words
  import opened SeqCode
  import opened Sequencer
  import opened Assembler
  import opened TwoPass
  import opened Microcode
  import L = ListWalk

  /** A label and the words after it. The empty name declares nothing. */
  datatype Block = Block(name: string, body: seq<Stmt>)

  /** An instruction, its address replaced by a label where the label is not empty. */
  type Line = (Instr, string)

  function Lines(code: seq<Line>): seq<Stmt> {
    seq(|code|, i requires 0 <= i < |code| => Ins(code[i].0, code[i].1))
  }

  // ---- Code ----

  function CheckLines(ch: L.Channel): seq<Line> {
    [(Jmp(SkipCondition(ch), ch.extCond, 0), ch.base + "_END"), (Jmp(QueueFull(ch), 0, 0), ch.base + "_END")]
  }

  function Issue3Lines(ch: L.Channel): seq<Line> {
    [(LoadRb(0), ch.base + "_INDEX"), (LoadSysAddr(RB, 0), "0x0"), (LoadXferCtl(RB, 0), "0x2"),
     (Jmp(C_LO, 0, 0), ch.base + "_NO_INT"),
     (SigEvent(0, 1, Pow2(ch.eventReg)), ""), (LoadXferCtl(IM, 0), "ZERO")]
  }

  function Resume4Lines(ch: L.Channel): seq<Line> {
    [(LoadRb(0), ch.base + "_INDEX"), (LoadRa(0), ch.base + "_RPT"), (Jmp(RA_NEQZ, 0, 0), ch.base + "_RPT_NOT_DONE")]
  }

  function Load4Lines(ch: L.Channel): seq<Line> {
    [(LoadSysAddr(RB, 0), "0x3"), (StoreSysAddr(IM, 0), ch.base + "_RPT"), (LoadRa(0), ch.base + "_RPT"),
     (Jmp(RA_EQZ, 0, 0), ch.base + "_NEXT_DESC"),
     (LoadSysAddr(RB, 0), "0x0"), (StoreSysAddr(IM, 0), ch.base + "_SYSA")]
  }

  function Issue4Lines(ch: L.Channel): seq<Line> {
    [(AddRa(0), "MINUS1"), (LoadSysAddr(IM, 0), ch.base + "_SYSA"), (LoadXferCtl(RB, 0), "0x2"),
     (Jmp(C_LO, 0, 0), ch.base + "_NO_INT"), (Jmp(RA_NEQZ, 0, 0), ch.base + "_NO_INT"),
     (SigEvent(0, 1, Pow2(ch.eventReg)), ""), (LoadXferCtl(IM, 0), "ZERO")]
  }

  function Save4Lines(ch: L.Channel): seq<Line> {
    [(StoreRa(0), ch.base + "_RPT"), (AddSysAddr(ch.step), ""), (StoreSysAddr(IM, 0), ch.base + "_SYSA"),
     (Jmp(RA_NEQZ, 0, 0), ch.base + "_UPDATE_B")]
  }

  function ClearLines(ch: L.Channel): seq<Line> {
    if ch.dynamic then [(LoadSysAddr(IM, 0), "ZERO"), (StoreSysAddr(RB, 0), if ch.fourWord then "0x2" else "0x1")]
    else []
  }

  function NextLines(ch: L.Channel): seq<Line> {
    [(AddRb(0), if ch.fourWord then "FOUR" else "THREE"), (LoadRa(0), ch.base + "_CNT"), (AddRa(0), "MINUS1"),
     (Jmp(RA_NEQZ, 0, 0), ch.base + "_UPDATE"), (LoadRa(0), ch.base + "_SIZE"), (LoadRb(0), ch.base + "_BASE")]
  }

  function CntLines(ch: L.Channel): seq<Line> { [(StoreRa(0), ch.base + "_CNT")] }

  function IndexLines(ch: L.Channel): seq<Line> { [(StoreRb(0), ch.base + "_INDEX")] }

  function CodeBlocks(ch: L.Channel): seq<Block> {
    if ch.fourWord then
      [Block(ch.base, Lines(CheckLines(ch) + Resume4Lines(ch) + Load4Lines(ch))),
       Block(ch.base + "_RPT_NOT_DONE", Lines(Issue4Lines(ch))),
       Block(ch.base + "_NO_INT", Lines(Save4Lines(ch) + ClearLines(ch))),
       Block(ch.base + "_NEXT_DESC", Lines(NextLines(ch))),
       Block(ch.base + "_UPDATE", Lines(CntLines(ch))),
       Block(ch.base + "_UPDATE_B", Lines(IndexLines(ch))),
       Block(ch.base + "_END", [])]
    else
      [Block(ch.base, Lines(CheckLines(ch) + Issue3Lines(ch))),
       Block(ch.base + "_NO_INT", Lines(ClearLines(ch) + NextLines(ch))),
       Block(ch.base + "_UPDATE", Lines(CntLines(ch) + IndexLines(ch))),
       Block(ch.base + "_END", [])]
  }

  // ---- Data ----

  function EntryStmts(ch: L.Channel, e: L.SgEntry): seq<Stmt> {
    ConstantN64(e.addr) + [Plain(e.ctl)] + if ch.fourWord then [Plain(e.rpt)] else []
  }

  function ListStmts(ch: L.Channel, list: seq<L.SgEntry>): seq<Stmt> {
    if list == [] then []
    else ListStmts(ch, list[..|list| - 1]) + EntryStmts(ch, list[|list| - 1])
  }

  function VariableBlocks(ch: L.Channel): seq<Block>
    requires |ch.list| < INT_LIMIT
  {
    [Block(ch.base + "_SIZE", [Plain(|ch.list|)]),
     Block(ch.base + "_BASE", [ConstantL(ch.base + "_LIST")]),
     Block(ch.base + "_INDEX", [ConstantL(ch.base + "_LIST")]),
     Block(ch.base + "_CNT", [Plain(|ch.list|)])] +
    if ch.fourWord then
      [Block(ch.base + "_RPT", [Plain(0), Plain(0)]), Block(ch.base + "_SYSA", ConstantN64(0))]
    else []
  }

  function DataBlocks(ch: L.Channel): seq<Block>
    requires |ch.list| < INT_LIMIT
  {
    VariableBlocks(ch) + [Block(ch.base + "_LIST", ListStmts(ch, ch.list))]
  }

  // ---- Blocks as statements ----

  function Lay(blocks: seq<Block>): seq<Stmt> {
    if blocks == [] then []
    else
      var b := blocks[|blocks| - 1];
      Lay(blocks[..|blocks| - 1]) + [Label(b.name)] + b.body
  }

  function Body(blocks: seq<Block>): seq<Stmt> {
    if blocks == [] then [] else Body(blocks[..|blocks| - 1]) + blocks[|blocks| - 1].body
  }

  /** Offset of block `i`. */
  function OffsetOf(blocks: seq<Block>, i: nat): nat
    requires i <= |blocks|
  {
    if i == 0 then 0 else OffsetOf(blocks, i - 1) + |blocks[i - 1].body|
  }

  /** The labels of blocks laid out from `pc` on. */
  function Names(blocks: seq<Block>, pc: nat): seq<Entry> {
    if blocks == [] then []
    else
      var front := blocks[..|blocks| - 1];
      Names(front, pc) + [Entry(blocks[|blocks| - 1].name, pc + |Body(front)|)]
  }

  predicate Puts(stmts: seq<Stmt>) { forall s | s in stmts :: s.Put? }

  predicate Solid(blocks: seq<Block>) { forall b | b in blocks :: Puts(b.body) }

  /** One call of a service, with the program counter at `at.code` and `data_address` at
      `at.data`. */
  function ChannelStmts(ch: L.Channel, at: Site): seq<Stmt>
    requires |ch.list| < INT_LIMIT
  {
    Lay(CodeBlocks(ch)) + [Org(at.data)] + Lay(DataBlocks(ch)) + [Org(at.code + CodeLength(ch))]
  }

  // ---- Concatenation ----

  function PcAfter(stmts: seq<Stmt>, pc: nat): nat
    decreases |stmts|
  {
    if stmts == [] then pc
    else
      match stmts[0]
      case Org(a) => PcAfter(stmts[1..], a)
      case Label(_) => PcAfter(stmts[1..], pc)
      case Put(_, _) => PcAfter(stmts[1..], pc + 1)
  }

  lemma {:induction false} Concat(a: seq<Stmt>, b: seq<Stmt>, pc: nat, env: seq<Entry>, x: nat, before: Option<Word>)
    ensures PcAfter(a + b, pc) == PcAfter(b, PcAfter(a, pc))
    ensures Declared(a + b, pc) == Declared(a, pc) + Declared(b, PcAfter(a, pc))
    ensures Direct(a + b, pc, env, x, before) == Direct(b, PcAfter(a, pc), env, x, Direct(a, pc, env, x, before))
    decreases |a|
  {
    hide Final;
    if a == [] {
      assert a + b == b;
    } else {
      assert (a + b)[0] == a[0] && (a + b)[1..] == a[1..] + b;
      match a[0]
      case Org(o) => Concat(a[1..], b, o, env, x, before);
      case Label(_) => Concat(a[1..], b, pc, env, x, before);
      case Put(data, operand) =>
        Concat(a[1..], b, pc + 1, env, x, if x == pc then Some(Final(env, data, operand)) else before);
    }
  }

  /** The word straight code laid out from `pc` on leaves at `x`. */
  function WordAt(a: seq<Stmt>, pc: nat, env: seq<Entry>, x: nat, before: Option<Word>): Option<Word>
    requires Puts(a)
  {
    if pc <= x < pc + |a| then Some(Final(env, a[x - pc].data, a[x - pc].operand)) else before
  }

  lemma WordAtConcat(a: seq<Stmt>, b: seq<Stmt>, pc: nat, env: seq<Entry>, x: nat, before: Option<Word>)
    requires Puts(a) && Puts(b)
    ensures Puts(a + b)
    ensures WordAt(a + b, pc, env, x, before) == WordAt(b, pc + |a|, env, x, WordAt(a, pc, env, x, before))
  {
    hide Final;
  }

  /** Straight words. */
  lemma {:induction false} PutsDirect(a: seq<Stmt>, pc: nat, env: seq<Entry>, x: nat, before: Option<Word>)
    requires Puts(a)
    ensures PcAfter(a, pc) == pc + |a| && Declared(a, pc) == []
    ensures Direct(a, pc, env, x, before) == WordAt(a, pc, env, x, before)
    decreases |a|
  {
    hide Final;
    if a != [] {
      assert a[0] in a;
      assert forall s | s in a[1..] :: s in a;
      PutsDirect(a[1..], pc + 1, env, x, if x == pc then Some(Final(env, a[0].data, a[0].operand)) else before);
    }
  }

  lemma BlockDirect(b: Block, pc: nat, env: seq<Entry>, x: nat, before: Option<Word>)
    requires Puts(b.body)
    ensures var stmts := [Label(b.name)] + b.body;
            && PcAfter(stmts, pc) == pc + |b.body|
            && Declared(stmts, pc) == [Entry(b.name, pc)]
            && Direct(stmts, pc, env, x, before) == WordAt(b.body, pc, env, x, before)
  {
    hide Final;
    assert ([Label(b.name)] + b.body)[1..] == b.body;
    PutsDirect(b.body, pc, env, x, before);
  }

  lemma {:induction false} BodyPuts(blocks: seq<Block>)
    requires Solid(blocks)
    ensures Puts(Body(blocks))
  {
    if blocks != [] {
      assert blocks[|blocks| - 1] in blocks;
      BodyPuts(blocks[..|blocks| - 1]);
    }
  }

  /** Blocks one after another. */
  lemma {:induction false} LayDirect(blocks: seq<Block>, pc: nat, env: seq<Entry>, x: nat, before: Option<Word>)
    requires Solid(blocks)
    ensures Puts(Body(blocks))
    ensures PcAfter(Lay(blocks), pc) == pc + |Body(blocks)|
    ensures Declared(Lay(blocks), pc) == Names(blocks, pc)
    ensures Direct(Lay(blocks), pc, env, x, before) == WordAt(Body(blocks), pc, env, x, before)
  {
    hide Direct, Declared, PcAfter, WordAt, Puts;
    BodyPuts(blocks);
    if blocks == [] {
      PutsDirect([], pc, env, x, before);
    } else {
      var n := |blocks| - 1;
      var (front, b) := (blocks[..n], blocks[n]);
      assert b in blocks;
      LayDirect(front, pc, env, x, before);
      BlockDirect(b, pc + |Body(front)|, env, x, Direct(Lay(front), pc, env, x, before));
      Concat(Lay(front), [Label(b.name)] + b.body, pc, env, x, before);
      WordAtConcat(Body(front), b.body, pc, env, x, before);
      assert Lay(blocks) == Lay(front) + ([Label(b.name)] + b.body);
    }
  }

  lemma {:induction false} OffsetAgree(blocks: seq<Block>, n: nat, i: nat)
    requires i <= n <= |blocks|
    ensures OffsetOf(blocks[..n], i) == OffsetOf(blocks, i)
  {
    if i > 0 { OffsetAgree(blocks, n, i - 1); }
  }

  /** Where block `i` of a laid-out sequence is declared. */
  lemma {:induction false} NameAt(blocks: seq<Block>, pc: nat, i: nat)
    requires i < |blocks|
    ensures |Names(blocks, pc)| == |blocks|
    ensures Names(blocks, pc)[i] == Entry(blocks[i].name, pc + OffsetOf(blocks, i))
  {
    var n := |blocks| - 1;
    NamesLength(blocks[..n], pc);
    if i == n {
      BodyLength(blocks[..n]);
      OffsetAgree(blocks, n, n);
    } else {
      NameAt(blocks[..n], pc, i);
      OffsetAgree(blocks, n, i);
    }
  }

  lemma {:induction false} NamesLength(blocks: seq<Block>, pc: nat)
    ensures |Names(blocks, pc)| == |blocks|
  {
    if blocks != [] { NamesLength(blocks[..|blocks| - 1], pc); }
  }

  lemma {:induction false} BodyLength(blocks: seq<Block>)
    ensures |Body(blocks)| == OffsetOf(blocks, |blocks|)
  {
    if blocks != [] {
      BodyLength(blocks[..|blocks| - 1]);
      OffsetAgree(blocks, |blocks| - 1, |blocks| - 1);
    }
  }
}
