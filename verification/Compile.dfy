/** The whole program as the emitting calls of sg_dma.c and cont_block_dma.c, and the image
    the assembler makes of it. */
module Compile {
  import opened Words
  import opened SeqCode
  import opened Sequencer
  import opened Assembler
  import opened TwoPass
  import opened Microcode
  import opened Service
  import opened Linker
  import opened MainLoop
  import L = ListWalk

  const HEAD: seq<Stmt> := [Org(0), Label("START"), Plain(Encode(Nop)), Label("MAIN")]

  /** The number of entries of a list is a C int. */
  predicate Small(chs: seq<L.Channel>) { forall k | 0 <= k < |chs| :: |chs[k].list| < INT_LIMIT }

  /** The calls for the first `k` channels. */
  function ChannelsStmts(p: Program, k: nat): seq<Stmt>
    requires k <= |p.channels| && Small(p.channels)
  {
    if k == 0 then [] else ChannelsStmts(p, k - 1) + ChannelStmts(p.channels[k - 1], SiteOf(p, k - 1))
  }

  function TailLines(p: Program): seq<Line> {
    seq(p.pads, _ => (Nop, "")) + [(Jmp(ALWAYS, 0, 0), "MAIN")]
  }

  function ConstantBlocks(p: Program): seq<Block> {
    [Block("ZERO", ConstantN64(0)), Block("MINUS1", [Plain(0xFFFF_FFFF)]),
     Block("THREE", [Plain(3)]), Block("FOUR", [Plain(4)])]
    + if p.marker then [Block("MARKER", ConstantN64(0x2222_2222_1111_1111))] else []
  }

  /** The words of the constants. */
  lemma ConstantsAre(p: Program)
    ensures Body(ConstantBlocks(p)) ==
            [Put(0, ""), Put(0, ""), Put(0xFFFF_FFFF, ""), Put(3, ""), Put(4, "")]
            + if p.marker then [Put(0x1111_1111, ""), Put(0x2222_2222, "")] else []
    ensures forall i | 0 <= i < |ConstantBlocks(p)| ::
              ConstantBlocks(p)[i].name == ["ZERO", "MINUS1", "THREE", "FOUR", "MARKER"][i]
  {
    var blocks := ConstantBlocks(p);
    assert blocks[..4][..3][..2][..1][..0] == [];
    assert Body(blocks[..4][..3][..2][..1]) == [Put(0, ""), Put(0, "")];
    assert Body(blocks[..4][..3][..2]) == [Put(0, ""), Put(0, ""), Put(0xFFFF_FFFF, "")];
    assert Body(blocks[..4][..3]) == [Put(0, ""), Put(0, ""), Put(0xFFFF_FFFF, ""), Put(3, "")];
    assert Body(blocks[..4]) == [Put(0, ""), Put(0, ""), Put(0xFFFF_FFFF, ""), Put(3, ""), Put(4, "")];
    if p.marker {
      assert blocks[..|blocks| - 1] == blocks[..4];
    } else {
      assert blocks == blocks[..4];
    }
  }

  function ProgramStmts(p: Program): seq<Stmt>
    requires Small(p.channels)
  {
    HEAD + ChannelsStmts(p, |p.channels|) + (Lines(TailLines(p)) + [Org(p.constants)]) + Lay(ConstantBlocks(p))
  }

  /** The labels a program declares, with their addresses. */
  function ChannelsLabels(p: Program, k: nat): seq<Entry>
    requires k <= |p.channels| && Small(p.channels)
  {
    if k == 0 then []
    else
      var (ch, at) := (p.channels[k - 1], SiteOf(p, k - 1));
      ChannelsLabels(p, k - 1) + Names(CodeBlocks(ch), at.code) + Names(DataBlocks(ch), at.data)
  }

  function Labels(p: Program): seq<Entry>
    requires Small(p.channels)
  {
    [Entry("START", START), Entry("MAIN", MAIN)] + ChannelsLabels(p, |p.channels|)
    + Names(ConstantBlocks(p), p.constants)
  }

  // ---- The words of each region ----

  lemma CodeSolid(ch: L.Channel)
    ensures Solid(CodeBlocks(ch))
  {
    hide CheckLines, Resume4Lines, Load4Lines, Issue4Lines, Save4Lines;
    hide Issue3Lines, ClearLines, NextLines, CntLines, IndexLines;
  }

  lemma {:induction false} ListPuts(ch: L.Channel, list: seq<L.SgEntry>)
    ensures Puts(ListStmts(ch, list))
  {
    if list != [] { ListPuts(ch, list[..|list| - 1]); }
  }

  lemma DataSolid(ch: L.Channel)
    requires |ch.list| < INT_LIMIT
    ensures Solid(DataBlocks(ch))
  {
    hide ListStmts;
    ListPuts(ch, ch.list);
  }

  lemma ConstantsSolid(p: Program)
    ensures Solid(ConstantBlocks(p)) && |Body(ConstantBlocks(p))| == ConstantsLength(p)
  {
    var bs := ConstantBlocks(p);
    BodyLength(bs);
    assert OffsetOf(bs, 0) == 0 && OffsetOf(bs, 1) == 2 && OffsetOf(bs, 2) == 3 && OffsetOf(bs, 3) == 4;
  }

  lemma CodeBodyLength(ch: L.Channel)
    ensures |Body(CodeBlocks(ch))| == CodeLength(ch)
  {
    hide CodeBlocks, Body, OffsetOf;
    BodyLength(CodeBlocks(ch));
    if ch.fourWord { Offsets4(ch); } else { Offsets3(ch); }
  }

  lemma DataBodyLength(ch: L.Channel)
    requires |ch.list| < INT_LIMIT
    ensures |Body(DataBlocks(ch))| == DataLength(ch)
  {
    hide Body, OffsetOf, ListStmts;
    BodyLength(DataBlocks(ch));
    DataOffsets(ch);
  }

  /** What one service leaves at `x`. */
  function ChannelAt(ch: L.Channel, at: Site, env: seq<Entry>, x: nat, before: Option<Word>): Option<Word>
    requires |ch.list| < INT_LIMIT
  {
    CodeSolid(ch);
    DataSolid(ch);
    BodyPuts(CodeBlocks(ch));
    BodyPuts(DataBlocks(ch));
    WordAt(Body(DataBlocks(ch)), at.data, env, x, WordAt(Body(CodeBlocks(ch)), at.code, env, x, before))
  }

  lemma OrgDirect(a: nat, pc: nat, env: seq<Entry>, x: nat, before: Option<Word>)
    ensures PcAfter([Org(a)], pc) == a && Declared([Org(a)], pc) == [] && Direct([Org(a)], pc, env, x, before) == before
  {
    assert [Org(a)][1..] == [];
  }

  lemma NothingDirect(pc: nat, env: seq<Entry>, x: nat, before: Option<Word>)
    ensures PcAfter([], pc) == pc && Declared([], pc) == [] && Direct([], pc, env, x, before) == before
  {
  }

  lemma ChannelDirect(ch: L.Channel, at: Site, env: seq<Entry>, x: nat, before: Option<Word>)
    requires |ch.list| < INT_LIMIT
    ensures var stmts := ChannelStmts(ch, at);
            && PcAfter(stmts, at.code) == at.code + CodeLength(ch)
            && Declared(stmts, at.code) == Names(CodeBlocks(ch), at.code) + Names(DataBlocks(ch), at.data)
            && Direct(stmts, at.code, env, x, before) == ChannelAt(ch, at, env, x, before)
  {
    hide CodeBlocks, DataBlocks, Lay, Body, Names, WordAt, Direct, Declared, PcAfter, CodeLength, Puts, Solid;
    CodeSolid(ch);
    DataSolid(ch);
    var code, data := CodeBlocks(ch), DataBlocks(ch);
    var (a, b, c, d) := (Lay(code), [Org(at.data)], Lay(data), [Org(at.code + CodeLength(ch))]);
    LayDirect(code, at.code, env, x, before);
    var w := Direct(a, at.code, env, x, before);
    var pc := PcAfter(a, at.code);
    OrgDirect(at.data, pc, env, x, w);
    LayDirect(data, at.data, env, x, w);
    var w' := Direct(c, at.data, env, x, w);
    OrgDirect(at.code + CodeLength(ch), PcAfter(c, at.data), env, x, w');
    Concat(a, b, at.code, env, x, before);
    Concat(a + b, c, at.code, env, x, before);
    Concat(a + b + c, d, at.code, env, x, before);
  }

  function ChannelsAt(p: Program, k: nat, env: seq<Entry>, x: nat, before: Option<Word>): Option<Word>
    requires k <= |p.channels| && Small(p.channels)
  {
    if k == 0 then before
    else ChannelAt(p.channels[k - 1], SiteOf(p, k - 1), env, x, ChannelsAt(p, k - 1, env, x, before))
  }

  lemma {:induction false} ChannelsDirect(p: Program, k: nat, env: seq<Entry>, x: nat, before: Option<Word>)
    requires k <= |p.channels| && Small(p.channels)
    ensures var stmts := ChannelsStmts(p, k);
            && PcAfter(stmts, MAIN) == CodeStart(p.channels, k)
            && Declared(stmts, MAIN) == ChannelsLabels(p, k)
            && Direct(stmts, MAIN, env, x, before) == ChannelsAt(p, k, env, x, before)
  {
    hide Direct, Declared, PcAfter, ChannelStmts, ChannelAt, CodeLength, Names, CodeBlocks, DataBlocks;
    if k == 0 {
      NothingDirect(MAIN, env, x, before);
    } else {
      ChannelsDirect(p, k - 1, env, x, before);
      var (ch, at) := (p.channels[k - 1], SiteOf(p, k - 1));
      ChannelDirect(ch, at, env, x, ChannelsAt(p, k - 1, env, x, before));
      Concat(ChannelsStmts(p, k - 1), ChannelStmts(ch, at), MAIN, env, x, before);
    }
  }

  /** What the whole program leaves at `x`. */
  lemma ProgramDirect(p: Program, env: seq<Entry>, x: nat)
    requires Small(p.channels)
    ensures Puts(Lines(TailLines(p))) && Puts(Body(ConstantBlocks(p)))
    ensures Declared(ProgramStmts(p), 0) == Labels(p)
    ensures Direct(ProgramStmts(p), 0, env, x, None)
         == WordAt(Body(ConstantBlocks(p)), p.constants, env, x,
              WordAt(Lines(TailLines(p)), Tail(p), env, x,
                ChannelsAt(p, |p.channels|, env, x, if x == START then Some(Encode(Nop)) else None)))
  {
    hide Direct, Declared, PcAfter, ChannelsStmts, ChannelsAt, ChannelsLabels, WordAt, Body, Lay, Names, Encode;
    hide ConstantBlocks, TailLines, Lines, Solid, Puts;
    var (a, b, c) := (HEAD, ChannelsStmts(p, |p.channels|), Lines(TailLines(p)) + [Org(p.constants)]);
    HeadDirect(env, x);
    var w0 := Direct(a, 0, env, x, None);
    ChannelsDirect(p, |p.channels|, env, x, w0);
    var w1 := Direct(b, MAIN, env, x, w0);
    LinesPut(TailLines(p));
    PutsDirect(Lines(TailLines(p)), Tail(p), env, x, w1);
    OrgDirect(p.constants, PcAfter(Lines(TailLines(p)), Tail(p)), env, x,
              Direct(Lines(TailLines(p)), Tail(p), env, x, w1));
    Concat(Lines(TailLines(p)), [Org(p.constants)], Tail(p), env, x, w1);
    var w2 := Direct(c, Tail(p), env, x, w1);
    ConstantsSolid(p);
    LayDirect(ConstantBlocks(p), p.constants, env, x, w2);
    Concat(a, b, 0, env, x, None);
    Concat(a + b, c, 0, env, x, None);
    Concat(a + b + c, Lay(ConstantBlocks(p)), 0, env, x, None);
  }

  lemma LinesPut(lines: seq<Line>)
    ensures Puts(Lines(lines))
  {
  }

  lemma HeadDirect(env: seq<Entry>, x: nat)
    ensures PcAfter(HEAD, 0) == MAIN && Declared(HEAD, 0) == [Entry("START", START), Entry("MAIN", MAIN)]
    ensures Direct(HEAD, 0, env, x, None) == if x == START then Some(Encode(Nop)) else None
  {
    hide Encode;
    var s := HEAD;
    assert s[1..] == [Label("START"), Plain(Encode(Nop)), Label("MAIN")];
    assert s[1..][1..] == [Plain(Encode(Nop)), Label("MAIN")];
    assert s[1..][1..][1..] == [Label("MAIN")];
    assert s[1..][1..][1..][1..] == [];
  }

  // ---- Every region survives ----

  /** The last writer of an address in channel `j`'s blocks is channel `j`. */
  lemma {:induction false} RegionsKept(p: Program, k: nat, j: nat, env: seq<Entry>, x: nat, before: Option<Word>)
    requires Small(p.channels) && ValidProgram(p) && j < k <= |p.channels|
    ensures var (ch, at) := (p.channels[j], SiteOf(p, j));
            && Puts(Body(CodeBlocks(ch))) && Puts(Body(DataBlocks(ch)))
            && (at.code <= x < at.code + CodeLength(ch) ==>
                  ChannelsAt(p, k, env, x, before) == WordAt(Body(CodeBlocks(ch)), at.code, env, x, None))
            && (at.data <= x < at.data + DataLength(ch) ==>
                  ChannelsAt(p, k, env, x, before) == WordAt(Body(DataBlocks(ch)), at.data, env, x, None))
  {
    hide CodeBlocks, DataBlocks, Body, CodeLength, DataLength, Final, Fits, WellFormed, CodeStart, DataStart;
    var (ch, at) := (p.channels[j], SiteOf(p, j));
    var (ch', at') := (p.channels[k - 1], SiteOf(p, k - 1));
    SitesSeparate(p, j);
    SitesSeparate(p, k - 1);
    CodeBodyLength(ch);
    DataBodyLength(ch);
    CodeBodyLength(ch');
    DataBodyLength(ch');
    CodeSolid(ch);
    DataSolid(ch);
    BodyPuts(CodeBlocks(ch));
    BodyPuts(DataBlocks(ch));
    CodeBeforeData(p, j, k - 1);
    CodeBeforeData(p, k - 1, j);
    if j < k - 1 {
      CodeOrder(p.channels, j, k - 1);
      DataOrder(p.channels, p.data, j, k - 1);
      RegionsKept(p, k - 1, j, env, x, before);
    }
  }

  lemma CodeBeforeData(p: Program, i: nat, j: nat)
    requires ValidProgram(p) && i < |p.channels| && j < |p.channels|
    ensures Disjoint(SiteOf(p, i).code, CodeLength(p.channels[i]), SiteOf(p, j).data, DataLength(p.channels[j]))
  {
    hide CodeLength, DataLength, CodeStart, DataStart;
    SitesSeparate(p, i);
    SitesSeparate(p, j);
  }

  /** Outside the channels' blocks the services leave what was there. */
  lemma {:induction false} ChannelsElsewhere(p: Program, k: nat, env: seq<Entry>, x: nat, before: Option<Word>)
    requires Small(p.channels) && ValidProgram(p) && k <= |p.channels|
    requires !(MAIN <= x < Tail(p)) && !(p.data <= x < DataEnd(p))
    ensures ChannelsAt(p, k, env, x, before) == before
  {
    hide CodeBlocks, DataBlocks, Body, CodeLength, DataLength, Final, Fits, WellFormed, CodeStart, DataStart;
    if k > 0 {
      ChannelsElsewhere(p, k - 1, env, x, before);
      SitesSeparate(p, k - 1);
      CodeBodyLength(p.channels[k - 1]);
      DataBodyLength(p.channels[k - 1]);
    }
  }
}
