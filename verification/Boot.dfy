/** The assembled image boots: in a RAM that holds it, whatever the unused words are, the
    sequencer finds the main loop with every channel at the start of its list. */
module Boot {
  import opened Words
  import opened SeqCode
  import opened Sequencer
  import opened Assembler
  import opened TwoPass
  import opened Microcode
  import opened Service
  import opened Linker
  import opened MainLoop
  import opened Compile
  import L = ListWalk

  /** Every word the direct assembler puts is in memory. */
  predicate HasImage(mem: seq<Word>, p: Program)
    requires Small(p.channels)
  {
    && |mem| == RAM_SIZE
    && forall x | 0 <= x < RAM_SIZE && Direct(ProgramStmts(p), 0, Labels(p), x, None).Some? ::
         mem[x] == Direct(ProgramStmts(p), 0, Labels(p), x, None).value
  }

  /** Straight code whose words are in the image is in memory. */
  lemma ImagedByWordAt(mem: seq<Word>, p: Program, a: nat, body: seq<Stmt>)
    requires Small(p.channels) && HasImage(mem, p) && Puts(body) && a + |body| <= RAM_SIZE
    requires forall x | a <= x < a + |body| ::
               Direct(ProgramStmts(p), 0, Labels(p), x, None) == WordAt(body, a, Labels(p), x, None)
    ensures Imaged(mem, a, body, Labels(p))
  {
    hide Direct, ProgramStmts, Labels, Final;
    forall i | 0 <= i < |body| ensures mem[a + i] == Final(Labels(p), body[i].data, body[i].operand) {
      assert Direct(ProgramStmts(p), 0, Labels(p), a + i, None) == WordAt(body, a, Labels(p), a + i, None);
    }
  }

  lemma WordElsewhere(body: seq<Stmt>, a: nat, env: seq<Entry>, x: nat, before: Option<Word>)
    requires Puts(body) && !(a <= x < a + |body|)
    ensures WordAt(body, a, env, x, before) == before
  {
  }

  lemma WordHere(body: seq<Stmt>, a: nat, env: seq<Entry>, x: nat, before: Option<Word>, other: Option<Word>)
    requires Puts(body) && a <= x < a + |body|
    ensures WordAt(body, a, env, x, before) == WordAt(body, a, env, x, other)
  {
  }

  /** In a channel's blocks the program leaves that channel's words. */
  lemma ChannelWords(p: Program, j: nat, x: nat)
    requires Small(p.channels) && ValidProgram(p) && j < |p.channels|
    ensures var (ch, at) := (p.channels[j], SiteOf(p, j)); var env := Labels(p);
            && Puts(Body(CodeBlocks(ch))) && Puts(Body(DataBlocks(ch)))
            && (at.code <= x < at.code + CodeLength(ch) ==>
                  Direct(ProgramStmts(p), 0, env, x, None) == WordAt(Body(CodeBlocks(ch)), at.code, env, x, None))
            && (at.data <= x < at.data + DataLength(ch) ==>
                  Direct(ProgramStmts(p), 0, env, x, None) == WordAt(Body(DataBlocks(ch)), at.data, env, x, None))
  {
    hide CodeBlocks, DataBlocks, Body, CodeLength, DataLength;
    hide WordAt, CodeStart, DataStart, Direct, Labels, ProgramStmts;
    hide ChannelsAt, TailLines, Lines, ConstantBlocks, Puts, Encode;
    var env := Labels(p);
    var before := if x == START then Some(Encode(Nop)) else None;
    ProgramDirect(p, env, x);
    RegionsKept(p, |p.channels|, j, env, x, before);
    SitesSeparate(p, j);
    ConstantsSolid(p);
    TailLength(p);
    var ch, at := p.channels[j], SiteOf(p, j);
    if at.code <= x < at.code + CodeLength(ch) || at.data <= x < at.data + DataLength(ch) {
      WordElsewhere(Lines(TailLines(p)), Tail(p), env, x, ChannelsAt(p, |p.channels|, env, x, before));
      WordElsewhere(Body(ConstantBlocks(p)), p.constants, env, x,
                    WordAt(Lines(TailLines(p)), Tail(p), env, x, ChannelsAt(p, |p.channels|, env, x, before)));
    }
  }

  lemma TailLength(p: Program)
    ensures |Lines(TailLines(p))| == |TailLines(p)| == p.pads + 1
  {
  }

  /** The words outside the channels' blocks. */
  lemma OtherWords(p: Program, x: nat)
    requires Small(p.channels) && ValidProgram(p)
    ensures Puts(Lines(TailLines(p))) && Puts(Body(ConstantBlocks(p)))
    ensures var env := Labels(p); var d := Direct(ProgramStmts(p), 0, env, x, None);
            && (x == START ==> d == Some(Encode(Nop)))
            && (Tail(p) <= x < CodeEnd(p) ==> d == WordAt(Lines(TailLines(p)), Tail(p), env, x, None))
            && (p.constants <= x < p.constants + ConstantsLength(p) ==>
                  d == WordAt(Body(ConstantBlocks(p)), p.constants, env, x, None))
  {
    hide Body, WordAt, CodeStart, DataStart, Direct, Labels, ProgramStmts;
    hide ChannelsAt, TailLines, Lines, ConstantBlocks, Puts, Encode;
    var env := Labels(p);
    var before := if x == START then Some(Encode(Nop)) else None;
    ProgramDirect(p, env, x);
    ConstantsSolid(p);
    TailLength(p);
    var w := ChannelsAt(p, |p.channels|, env, x, before);
    var w' := WordAt(Lines(TailLines(p)), Tail(p), env, x, w);
    if p.constants <= x < p.constants + ConstantsLength(p) {
      WordHere(Body(ConstantBlocks(p)), p.constants, env, x, w', None);
    } else {
      WordElsewhere(Body(ConstantBlocks(p)), p.constants, env, x, w');
      if Tail(p) <= x < CodeEnd(p) {
        WordHere(Lines(TailLines(p)), Tail(p), env, x, w, None);
      } else {
        WordElsewhere(Lines(TailLines(p)), Tail(p), env, x, w);
        if x == START {
          ChannelsElsewhere(p, |p.channels|, env, x, before);
        }
      }
    }
  }

  // ---- Labels ----

  lemma {:induction false} ChannelLabelsIncluded(p: Program, k: nat, j: nat)
    requires Small(p.channels) && j < k <= |p.channels|
    ensures Includes(ChannelsLabels(p, k), Names(CodeBlocks(p.channels[j]), SiteOf(p, j).code))
    ensures Includes(ChannelsLabels(p, k), Names(DataBlocks(p.channels[j]), SiteOf(p, j).data))
  {
    hide Names, CodeBlocks, DataBlocks, CodeStart, DataStart;
    if j < k - 1 { ChannelLabelsIncluded(p, k - 1, j); }
  }

  lemma LabelsIncluded(p: Program, j: nat)
    requires Small(p.channels) && j < |p.channels|
    ensures Includes(Labels(p), Names(CodeBlocks(p.channels[j]), SiteOf(p, j).code))
    ensures Includes(Labels(p), Names(DataBlocks(p.channels[j]), SiteOf(p, j).data))
  {
    hide Names, CodeBlocks, DataBlocks, CodeStart, DataStart, ChannelsLabels, ConstantBlocks;
    ChannelLabelsIncluded(p, |p.channels|, j);
  }

  lemma ConstantLabels(p: Program)
    requires Small(p.channels)
    ensures ConstantsDeclared(Labels(p), p.constants) && Entry("MAIN", MAIN) in Labels(p)
  {
    hide Names, ChannelsLabels, OffsetOf;
    var bs, env := ConstantBlocks(p), Labels(p);
    ConstantOffsets(p);
    NameAt(bs, p.constants, 0);
    NameAt(bs, p.constants, 1);
    NameAt(bs, p.constants, 2);
    NameAt(bs, p.constants, 3);
    assert Names(bs, p.constants)[0] in env && Names(bs, p.constants)[1] in env;
    assert Names(bs, p.constants)[2] in env && Names(bs, p.constants)[3] in env;
    assert Entry("MAIN", MAIN) == ([Entry("START", START), Entry("MAIN", MAIN)])[1];
  }

  lemma ConstantOffsets(p: Program)
    ensures var bs := ConstantBlocks(p);
            |bs| >= 4 && OffsetOf(bs, 0) == 0 && OffsetOf(bs, 1) == 2 && OffsetOf(bs, 2) == 3 && OffsetOf(bs, 3) == 4
  {
    var bs := ConstantBlocks(p);
    assert OffsetOf(bs, 0) == 0 && OffsetOf(bs, 1) == 2 && OffsetOf(bs, 2) == 3;
  }

  /** Every label is declared once, and none is spelt like a number operand. */
  predicate CleanLabels(p: Program)
    requires Small(p.channels)
  {
    Unique(Labels(p)) && NumbersFree(Labels(p))
  }

  // ---- The regions in memory ----

  lemma ChannelBoots(mem: seq<Word>, p: Program, j: nat)
    requires Small(p.channels) && ValidProgram(p) && CleanLabels(p) && HasImage(mem, p) && j < |p.channels|
    ensures Programmed(mem, p.channels[j], SiteOf(p, j))
    ensures Stored(mem, p.channels[j], SiteOf(p, j), L.Begin(p.channels[j]))
  {
    hide CodeBlocks, DataBlocks, Body, CodeLength, DataLength;
    hide WordAt, CodeStart, DataStart, Direct, Labels, ProgramStmts;
    hide Puts, Unique, NumbersFree, HasImage, Includes, Names, Programmed, Stored, Imaged, Target;
    var (ch, at) := (p.channels[j], SiteOf(p, j));
    var env := Labels(p);
    SitesSeparate(p, j);
    CodeBodyLength(ch);
    DataBodyLength(ch);
    ChannelWords(p, j, 0);
    forall x | at.code <= x < at.code + CodeLength(ch)
      ensures Direct(ProgramStmts(p), 0, env, x, None) == WordAt(Body(CodeBlocks(ch)), at.code, env, x, None)
    {
      ChannelWords(p, j, x);
    }
    forall x | at.data <= x < at.data + DataLength(ch)
      ensures Direct(ProgramStmts(p), 0, env, x, None) == WordAt(Body(DataBlocks(ch)), at.data, env, x, None)
    {
      ChannelWords(p, j, x);
    }
    ImagedByWordAt(mem, p, at.code, Body(CodeBlocks(ch)));
    ImagedByWordAt(mem, p, at.data, Body(DataBlocks(ch)));
    LabelsIncluded(p, j);
    ConstantLabels(p);
    LinkedByLabels(env, ch, at);
    FragmentProgrammed(mem, ch, at, env);
    HasImageLength(mem, p);
    LinkedList(env, ch, at);
    DataStored(mem, ch, at, env);
  }

  lemma HasImageLength(mem: seq<Word>, p: Program)
    requires Small(p.channels) && HasImage(mem, p)
    ensures |mem| == RAM_SIZE
  {
  }

  lemma LinkedList(env: seq<Entry>, ch: L.Channel, at: Site)
    requires Linked(env, ch, at)
    ensures Target(env, ch.base + "_LIST") == EntryAt(ch, at, 0)
  {
  }

  lemma ConstantsBoot(mem: seq<Word>, p: Program)
    requires Small(p.channels) && ValidProgram(p) && HasImage(mem, p)
    ensures Constants(mem, p.constants)
  {
    hide Direct, Labels, ProgramStmts, HasImage, Body, OffsetOf, WordAt, Imaged, Final, Fits, WellFormed;
    var env, a, bs := Labels(p), p.constants, ConstantBlocks(p);
    ValidFits(p);
    ConstantsSolid(p);
    OtherWords(p, 0);
    forall x | a <= x < a + |Body(bs)|
      ensures Direct(ProgramStmts(p), 0, env, x, None) == WordAt(Body(bs), a, env, x, None)
    {
      OtherWords(p, x);
    }
    ImagedByWordAt(mem, p, a, Body(bs));
    ConstantOffsets(p);
    BlockImaged(mem, a, bs, env, 0);
    BlockImaged(mem, a, bs, env, 1);
    BlockImaged(mem, a, bs, env, 2);
    BlockImaged(mem, a, bs, env, 3);
    TwoWords(mem, a, Plain(0), Plain(0), env);
    OneWord(mem, a + 2, Plain(0xFFFF_FFFF), env);
    OneWord(mem, a + 3, Plain(3), env);
    OneWord(mem, a + 4, Plain(4), env);
    FinalPlain(env, 0);
    FinalPlain(env, 0xFFFF_FFFF);
    FinalPlain(env, 3);
    FinalPlain(env, 4);
  }

  lemma ValidFits(p: Program)
    requires ValidProgram(p)
    ensures p.constants + ConstantsLength(p) < RAM_SIZE && CodeEnd(p) < RAM_SIZE
  {
  }

  lemma TailBoots(mem: seq<Word>, p: Program)
    requires Small(p.channels) && ValidProgram(p) && CleanLabels(p) && HasImage(mem, p)
    ensures CodeAt(mem, Tail(p), TailCode(p)) && Holds(mem, START, Nop)
  {
    hide Direct, Labels, ProgramStmts, HasImage, WordAt, Imaged, Unique, NumbersFree, Encode, Decode, Target, Tail;
    var env, lines := Labels(p), TailLines(p);
    TailLength(p);
    OtherWords(p, START);
    HasImageStart(mem, p);
    DecodeEncode(Nop);
    forall x | Tail(p) <= x < Tail(p) + |Lines(lines)|
      ensures Direct(ProgramStmts(p), 0, env, x, None) == WordAt(Lines(lines), Tail(p), env, x, None)
    {
      OtherWords(p, x);
    }
    ImagedByWordAt(mem, p, Tail(p), Lines(lines));
    ConstantLabels(p);
    DeclaredTarget(env, Entry("MAIN", MAIN));
    LinesAreCode(mem, Tail(p), lines, TailCode(p), env);
  }

  lemma HasImageStart(mem: seq<Word>, p: Program)
    requires Small(p.channels) && HasImage(mem, p)
    requires Direct(ProgramStmts(p), 0, Labels(p), START, None) == Some(Encode(Nop))
    ensures |mem| == RAM_SIZE && mem[START] == Encode(Nop)
  {
    hide Direct, ProgramStmts, Labels, Encode;
  }

  /** A RAM holding the image boots. */
  lemma ImageBoots(init: State, p: Program)
    requires Small(p.channels) && ValidProgram(p) && CleanLabels(p) && HasImage(init.mem, p)
    requires init.pc == START && init.out == []
    ensures MainLoop.Boot(p, init)
  {
    hide HasImage, CleanLabels, Programmed, Stored, CodeAt, Constants, Holds, TailCode, ValidProgram;
    HasImageLength(init.mem, p);
    ConstantsBoot(init.mem, p);
    TailBoots(init.mem, p);
    forall j | 0 <= j < |p.channels|
      ensures Programmed(init.mem, p.channels[j], SiteOf(p, j))
      ensures Stored(init.mem, p.channels[j], SiteOf(p, j), L.Begin(p.channels[j]))
    {
      ChannelBoots(init.mem, p, j);
    }
  }
}
