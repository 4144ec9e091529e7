/** The generating program: the services and vdma_main as the calls they make, one after
    another, on the assembler. */
module Generator {
  import opened Words
  import opened SeqCode
  import opened Sequencer
  import opened Assembler
  import opened TwoPass
  import opened Microcode
  import opened Service
  import opened Linker
  import opened MainLoop
  import opened Compile
  import L = ListWalk
  import BusModel

  /** Calls after an exit are not made. */
  lemma ExitStays(a: seq<Stmt>, b: seq<Stmt>, exit: int)
    requires AssembleAll(BLANK, a) == Exit(exit)
    ensures AssembleAll(BLANK, a + b) == Exit(exit)
  {
    AssembleConcat(BLANK, a, b);
  }

  /** The program counter after calls that do not exit. */
  lemma {:induction false} AssemblePc(st: AsmState, stmts: seq<Stmt>)
    requires |st.dram| == RAM_SIZE && AssembleAll(st, stmts).Going?
    ensures AssembleAll(st, stmts).st.pc == PcAfter(stmts, st.pc)
    decreases |stmts|
  {
    if stmts != [] {
      AssemblePc(Assemble(st, stmts[0]).st, stmts[1..]);
    }
  }

  lemma CodePc(calls: seq<Stmt>, ch: L.Channel, st: AsmState, st': AsmState)
    requires AssembleAll(BLANK, calls) == Going(st) && AssembleAll(BLANK, calls + Lay(CodeBlocks(ch))) == Going(st')
    ensures st'.pc == st.pc + CodeLength(ch)
  {
    hide CodeBlocks, Lay, Body, AssembleAll, Assemble;
    AssembleConcat(BLANK, calls, Lay(CodeBlocks(ch)));
    AssemblePc(st, Lay(CodeBlocks(ch)));
    CodeSolid(ch);
    CodeBodyLength(ch);
    LayDirect(CodeBlocks(ch), st.pc, [], 0, None);
  }

  lemma DataPc(calls: seq<Stmt>, ch: L.Channel, st: AsmState, st': AsmState)
    requires |ch.list| < INT_LIMIT
    requires AssembleAll(BLANK, calls) == Going(st) && AssembleAll(BLANK, calls + Lay(DataBlocks(ch))) == Going(st')
    ensures st'.pc == st.pc + DataLength(ch)
  {
    hide DataBlocks, Lay, Body, AssembleAll, Assemble;
    AssembleConcat(BLANK, calls, Lay(DataBlocks(ch)));
    AssemblePc(st, Lay(DataBlocks(ch)));
    DataSolid(ch);
    DataBodyLength(ch);
    LayDirect(DataBlocks(ch), st.pc, [], 0, None);
  }

  lemma DataLay(ch: L.Channel)
    requires |ch.list| < INT_LIMIT
    ensures Lay(DataBlocks(ch)) == Lay(VariableBlocks(ch)) + [Label(ch.base + "_LIST")] + ListStmts(ch, ch.list)
  {
    hide VariableBlocks, ListStmts;
    assert DataBlocks(ch)[..|DataBlocks(ch)| - 1] == VariableBlocks(ch);
  }

  lemma {:induction false} ListConcat(ch: L.Channel, a: seq<L.SgEntry>, b: seq<L.SgEntry>)
    ensures ListStmts(ch, a) <= ListStmts(ch, a + b)
  {
    if b == [] {
      assert a + b == a;
    } else {
      var n := |b| - 1;
      assert (a + b)[..|a + b| - 1] == a + b[..n];
      ListConcat(ch, a, b[..n]);
    }
  }

  class Generator {
    const asm: Asm
    var dataAddress: nat

    constructor (asm: Asm)
      ensures this.asm == asm && dataAddress == 0
    {
      this.asm := asm;
      dataAddress := 0;
    }

    /** The loop over the scatter/gather list. */
    method ListService(ch: L.Channel) returns (exit: int)
      requires asm.Valid()
      modifies asm, asm.dram, asm.labels
      ensures exit == OK ==> asm.Valid() && asm.calls == old(asm.calls) + ListStmts(ch, ch.list)
      ensures exit != OK ==> AssembleAll(BLANK, old(asm.calls) + ListStmts(ch, ch.list)) == Exit(exit)
    {
      hide EntryStmts, AssembleAll;
      exit := OK;
      for i := 0 to |ch.list|
        invariant asm.Valid() && exit == OK && asm.calls == old(asm.calls) + ListStmts(ch, ch.list[..i])
      {
        ghost var calls := asm.calls;
        exit := asm.DoAll(EntryStmts(ch, ch.list[i]));
        assert ch.list[..i + 1][..i] == ch.list[..i];
        assert calls + EntryStmts(ch, ch.list[i]) == old(asm.calls) + ListStmts(ch, ch.list[..i + 1]);
        if exit != OK {
          ListConcat(ch, ch.list[..i + 1], ch.list[i + 1..]);
          assert ch.list[..i + 1] + ch.list[i + 1..] == ch.list;
          ghost var rest := ListStmts(ch, ch.list)[|ListStmts(ch, ch.list[..i + 1])|..];
          ExitStays(old(asm.calls) + ListStmts(ch, ch.list[..i + 1]), rest, exit);
          assert old(asm.calls) + ListStmts(ch, ch.list[..i + 1]) + rest == old(asm.calls) + ListStmts(ch, ch.list);
          return;
        }
      }
      assert ch.list[..|ch.list|] == ch.list;
    }

    /** vdma_channel_service_3 and vdma_channel_service_4: the code at the program counter,
        the data at `data_address`, and back to the end of the code. */
    method ChannelService(ch: L.Channel) returns (exit: int)
      requires asm.Valid() && |ch.list| < INT_LIMIT
      modifies this, asm, asm.dram, asm.labels
      ensures var stmts := ChannelStmts(ch, Site(old(asm.programAddress), old(dataAddress), 0));
              if exit == OK then asm.Valid() && asm.calls == old(asm.calls) + stmts
              else AssembleAll(BLANK, old(asm.calls) + stmts) == Exit(exit)
      ensures exit == OK ==> asm.programAddress == old(asm.programAddress) + CodeLength(ch)
      ensures exit == OK ==> dataAddress == old(dataAddress) + DataLength(ch)
    {
      hide AssembleAll, CodeBlocks, DataBlocks, VariableBlocks, Lay, CodeLength, DataLength, ListStmts;
      ghost var st, c0 := asm.View(), asm.calls;
      ghost var (code, vars, items) :=
        (Lay(CodeBlocks(ch)), Lay(VariableBlocks(ch)) + [Label(ch.base + "_LIST")], ListStmts(ch, ch.list));
      ghost var (org, back) := ([Org(dataAddress)], [Org(asm.programAddress + CodeLength(ch))]);
      ghost var all := code + org + (vars + items) + back;
      DataLay(ch);
      Regroup(c0, code, org, vars, items, back);

      exit := asm.DoAll(Lay(CodeBlocks(ch)));
      if exit != OK {
        ExitStays(c0 + code, org + (vars + items) + back, exit);
        return;
      }
      CodePc(c0, ch, st, asm.View());
      var tmp := asm.programAddress;
      exit := asm.Do(Org(dataAddress));
      assert exit == OK by { OrgGoes(c0 + code, dataAddress); }
      ghost var st2, c2 := asm.View(), asm.calls;

      exit := asm.DoAll(Lay(VariableBlocks(ch)) + [Label(ch.base + "_LIST")]);
      if exit != OK {
        ExitStays(c2 + vars, items + back, exit);
        return;
      }
      exit := ListService(ch);
      if exit != OK {
        ExitStays(c2 + (vars + items), back, exit);
        return;
      }
      DataPc(c2, ch, st2, asm.View());

      dataAddress := asm.programAddress;
      exit := asm.Do(Org(tmp));
      assert exit == OK by { OrgGoes(c2 + (vars + items), tmp); }
    }

    /** vdma_main of sg_dma.c and cont_block_dma.c: the main loop, the constants, and pass
        two. */
    method VdmaMain(p: Program, base: Long) returns (exit: int, cmds: seq<BusModel.Cmd>)
      requires asm.Valid() && asm.calls == [] && Small(p.channels)
      modifies this, asm, asm.dram, asm.labels
      ensures var r := AssembleAll(BLANK, ProgramStmts(p));
              if exit == OK then r.Going? && cmds == Writes(base, PassTwo(r.st)) else r == Exit(exit)
    {
      hide AssembleAll, PassTwo, Writes, Encode, CodeLength;
      hide DataLength, ChannelStmts, Lay, TailLines, ConstantBlocks, Lines;
      cmds := [];
      ghost var (tail, constants) := (Lines(TailLines(p)) + [Org(p.constants)], Lay(ConstantBlocks(p)));
      exit := asm.DoAll(HEAD);
      assert [] + HEAD == HEAD;
      if exit != OK {
        assert HEAD + ChannelsStmts(p, 0) == HEAD;
        ProgramExits(p, 0, exit);
        return;
      }
      HeadPc(asm.View());
      dataAddress := p.data;
      for k := 0 to |p.channels|
        invariant asm.Valid() && exit == OK && asm.calls == HEAD + ChannelsStmts(p, k)
        invariant asm.programAddress == CodeStart(p.channels, k)
        invariant dataAddress == DataStart(p.channels, p.data, k)
      {
        exit := ChannelService(p.channels[k]);
        SiteIrrelevant(p, k);
        assert HEAD + ChannelsStmts(p, k) + ChannelStmts(p.channels[k], SiteOf(p, k)) == HEAD + ChannelsStmts(p, k + 1);
        if exit != OK {
          ProgramExits(p, k + 1, exit);
          return;
        }
      }
      exit := asm.DoAll(Lines(TailLines(p)) + [Org(p.constants)]);
      if exit != OK {
        ExitStays(HEAD + ChannelsStmts(p, |p.channels|) + tail, constants, exit);
        return;
      }
      exit := asm.DoAll(Lay(ConstantBlocks(p)));
      if exit == OK {
        cmds := asm.Process(base);
      }
    }
  }

  /** The calls of a service, cut at every place where it may stop. */
  lemma Regroup(calls: seq<Stmt>, code: seq<Stmt>, org: seq<Stmt>, vars: seq<Stmt>, items: seq<Stmt>, back: seq<Stmt>)
    ensures var (all, c2) := (code + org + (vars + items) + back, calls + code + org);
            && calls + code + (org + (vars + items) + back) == calls + all
            && c2 + vars + (items + back) == calls + all
            && c2 + vars + items == c2 + (vars + items)
            && c2 + (vars + items) + back == calls + all
  {
  }

  lemma HeadPc(st: AsmState)
    requires AssembleAll(BLANK, HEAD) == Going(st)
    ensures st.pc == MAIN
  {
    AssemblePc(BLANK, HEAD);
    HeadDirect([], 0);
  }

  /** The statements of a service do not depend on where the constants are. */
  lemma SiteIrrelevant(p: Program, k: nat)
    requires k < |p.channels| && Small(p.channels)
    ensures ChannelStmts(p.channels[k], Site(CodeStart(p.channels, k), DataStart(p.channels, p.data, k), 0))
         == ChannelStmts(p.channels[k], SiteOf(p, k))
  {
    hide CodeBlocks, DataBlocks, Lay, CodeLength, CodeStart, DataStart;
  }

  lemma ProgramExits(p: Program, k: nat, exit: int)
    requires k <= |p.channels| && Small(p.channels)
    requires AssembleAll(BLANK, HEAD + ChannelsStmts(p, k)) == Exit(exit)
    ensures AssembleAll(BLANK, ProgramStmts(p)) == Exit(exit)
  {
    hide AssembleAll, ChannelStmts, Lay, Lines, TailLines, ConstantBlocks;
    ChannelsGrow(p, k, |p.channels|);
    var (a, b) := (HEAD + ChannelsStmts(p, k), HEAD + ChannelsStmts(p, |p.channels|));
    ExitStays(a, b[|a|..], exit);
    assert a + b[|a|..] == b;
    ExitStays(b, (Lines(TailLines(p)) + [Org(p.constants)]) + Lay(ConstantBlocks(p)), exit);
    assert ProgramStmts(p) == b + ((Lines(TailLines(p)) + [Org(p.constants)]) + Lay(ConstantBlocks(p)));
  }

  lemma {:induction false} ChannelsGrow(p: Program, k: nat, n: nat)
    requires k <= n <= |p.channels| && Small(p.channels)
    ensures ChannelsStmts(p, k) <= ChannelsStmts(p, n)
  {
    hide ChannelStmts;
    if k < n { ChannelsGrow(p, k, n - 1); }
  }

  /** vdma_org never exits. */
  lemma OrgGoes(calls: seq<Stmt>, a: nat)
    requires AssembleAll(BLANK, calls).Going?
    ensures AssembleAll(BLANK, calls + [Org(a)]).Going?
  {
    AssembleConcat(BLANK, calls, [Org(a)]);
    assert [Org(a)][1..] == [];
  }
}
