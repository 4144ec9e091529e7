/** When the generating program runs through: no label is too long, there are not too many,
    and no word goes past the end of the descriptor RAM. */
module Success {
  import opened Words
  import opened SeqCode
  import opened Sequencer
  import opened Assembler
  import opened TwoPass
  import opened Microcode
  import opened Service
  import opened MainLoop
  import opened Compile
  import Boot
  import L = ListWalk

  /** Every word has room, and every label is short enough. */
  predicate Room(stmts: seq<Stmt>, pc: nat)
    decreases |stmts|
  {
    if stmts == [] then true
    else
      match stmts[0]
      case Org(a) => Room(stmts[1..], a)
      case Label(name) => |name| <= MAX_LABEL_SIZE && Room(stmts[1..], pc)
      case Put(_, _) => pc + 1 < RAM_SIZE && Room(stmts[1..], pc + 1)
  }

  /** Pass one exits exactly when there is no room or there are too many labels. */
  lemma {:induction false} RoomGoes(st: AsmState, stmts: seq<Stmt>)
    requires |st.dram| == RAM_SIZE && |st.labels| < MAX_LABELS
    ensures AssembleAll(st, stmts).Going? <==>
            Room(stmts, st.pc) && |st.labels| + |Declared(stmts, st.pc)| < MAX_LABELS
    decreases |stmts|
  {
    if stmts != [] && Assemble(st, stmts[0]).Going? {
      RoomGoes(Assemble(st, stmts[0]).st, stmts[1..]);
    }
  }

  lemma {:induction false} RoomConcat(a: seq<Stmt>, b: seq<Stmt>, pc: nat)
    ensures Room(a + b, pc) <==> Room(a, pc) && Room(b, PcAfter(a, pc))
    decreases |a|
  {
    if a == [] {
      assert a + b == b;
    } else {
      assert (a + b)[0] == a[0] && (a + b)[1..] == a[1..] + b;
      match a[0]
      case Org(o) => RoomConcat(a[1..], b, o);
      case Label(_) => RoomConcat(a[1..], b, pc);
      case Put(_, _) => RoomConcat(a[1..], b, pc + 1);
    }
  }

  lemma {:induction false} PutsRoom(a: seq<Stmt>, pc: nat)
    requires Puts(a) && pc + |a| < RAM_SIZE
    ensures Room(a, pc)
    decreases |a|
  {
    if a != [] {
      assert a[0] in a;
      PutsRoom(a[1..], pc + 1);
    }
  }

  predicate Short(env: seq<Entry>) { forall e | e in env :: |e.name| <= MAX_LABEL_SIZE }

  lemma BlockRoom(b: Block, pc: nat)
    requires Puts(b.body) && |b.name| <= MAX_LABEL_SIZE && pc + |b.body| < RAM_SIZE
    ensures Room([Label(b.name)] + b.body, pc)
  {
    assert ([Label(b.name)] + b.body)[1..] == b.body;
    PutsRoom(b.body, pc);
  }

  lemma {:induction false} LayRoom(blocks: seq<Block>, pc: nat)
    requires Solid(blocks) && Short(Names(blocks, pc)) && pc + |Body(blocks)| < RAM_SIZE
    ensures Room(Lay(blocks), pc)
  {
    hide Room, Direct, WordAt, Declared, PcAfter, Puts, Names, Short;
    if blocks == [] {
      PutsRoom([], pc);
    } else {
      var n := |blocks| - 1;
      var (front, b) := (blocks[..n], blocks[n]);
      ShortFront(blocks, pc);
      assert b in blocks;
      LayRoom(front, pc);
      BlockRoom(b, pc + |Body(front)|);
      LayDirect(front, pc, [], 0, None);
      RoomConcat(Lay(front), [Label(b.name)] + b.body, pc);
      assert Lay(blocks) == Lay(front) + ([Label(b.name)] + b.body);
    }
  }

  lemma ShortFront(blocks: seq<Block>, pc: nat)
    requires blocks != [] && Short(Names(blocks, pc))
    ensures var n := |blocks| - 1; |blocks[n].name| <= MAX_LABEL_SIZE && Short(Names(blocks[..n], pc))
  {
    hide Body;
    var front := blocks[..|blocks| - 1];
    var e := Entry(blocks[|blocks| - 1].name, pc + |Body(front)|);
    assert Names(blocks, pc) == Names(front, pc) + [e];
    assert e in Names(blocks, pc);
  }

  lemma OrgRoom(a: nat, pc: nat)
    ensures Room([Org(a)], pc) && PcAfter([Org(a)], pc) == a
  {
    assert [Org(a)][1..] == [];
  }

  lemma ChannelRoom(ch: L.Channel, at: Site)
    requires |ch.list| < INT_LIMIT && at.code + CodeLength(ch) < RAM_SIZE && at.data + DataLength(ch) < RAM_SIZE
    requires Short(Names(CodeBlocks(ch), at.code)) && Short(Names(DataBlocks(ch), at.data))
    ensures Room(ChannelStmts(ch, at), at.code)
  {
    hide Room, Short, CodeBlocks, DataBlocks, Lay, Body, Names, CodeLength, DataLength, PcAfter;
    CodeSolid(ch);
    DataSolid(ch);
    CodeBodyLength(ch);
    DataBodyLength(ch);
    var (a, b, c, d) := (Lay(CodeBlocks(ch)), [Org(at.data)], Lay(DataBlocks(ch)), [Org(at.code + CodeLength(ch))]);
    LayRoom(CodeBlocks(ch), at.code);
    LayRoom(DataBlocks(ch), at.data);
    OrgRoom(at.data, PcAfter(a, at.code));
    OrgRoom(at.code + CodeLength(ch), PcAfter(c, at.data));
    Concat(a, b, at.code, [], 0, None);
    Concat(a + b, c, at.code, [], 0, None);
    RoomConcat(a, b, at.code);
    RoomConcat(a + b, c, at.code);
    RoomConcat(a + b + c, d, at.code);
  }

  lemma {:induction false} ChannelsRoom(p: Program, k: nat)
    requires Small(p.channels) && ValidProgram(p) && k <= |p.channels| && Short(Labels(p))
    ensures Room(ChannelsStmts(p, k), MAIN)
  {
    hide Room, ChannelStmts, CodeBlocks, DataBlocks, Names, CodeLength, DataLength, CodeStart, DataStart, Labels;
    if k == 0 {
      PutsRoom([], MAIN);
    } else {
      ChannelsRoom(p, k - 1);
      SitesSeparate(p, k - 1);
      Boot.LabelsIncluded(p, k - 1);
      ChannelRoom(p.channels[k - 1], SiteOf(p, k - 1));
      ChannelsDirect(p, k - 1, [], 0, None);
      RoomConcat(ChannelsStmts(p, k - 1), ChannelStmts(p.channels[k - 1], SiteOf(p, k - 1)), MAIN);
    }
  }

  lemma HeadRoom()
    ensures Room(HEAD, 0)
  {
    hide Encode;
    var s := HEAD;
    assert s[1..] == [Label("START"), Plain(Encode(Nop)), Label("MAIN")];
    assert s[1..][1..] == [Plain(Encode(Nop)), Label("MAIN")];
    assert s[1..][1..][1..] == [Label("MAIN")];
    assert s[1..][1..][1..][1..] == [];
  }

  lemma ConstantsShort(p: Program)
    requires Small(p.channels) && Short(Labels(p))
    ensures Short(Names(ConstantBlocks(p), p.constants))
  {
    hide ConstantBlocks, ChannelsLabels, Names;
  }

  /** A program that fits and whose labels are short and few is assembled. */
  lemma AssemblySucceeds(p: Program)
    requires Small(p.channels) && ValidProgram(p) && Short(Labels(p)) && |Labels(p)| < MAX_LABELS
    ensures AssembleAll(BLANK, ProgramStmts(p)).Going?
  {
    hide Room, AssembleAll, ChannelsStmts, Lay, Lines, TailLines, ConstantBlocks, Labels, Names, Body, Short;
    hide PcAfter, Declared, Direct, WordAt, ChannelsAt, Tail, ChannelsLabels;
    var (a, b, t, o) := (HEAD, ChannelsStmts(p, |p.channels|), Lines(TailLines(p)), [Org(p.constants)]);
    ProgramDirect(p, [], 0);
    HeadRoom();
    HeadDirect([], 0);
    ChannelsRoom(p, |p.channels|);
    ChannelsDirect(p, |p.channels|, [], 0, None);
    Concat(a, b, 0, [], 0, None);
    RoomConcat(a, b, 0);
    LinesPut(TailLines(p));
    Boot.TailLength(p);
    TailFits(p);
    PutsRoom(t, Tail(p));
    PutsDirect(t, Tail(p), [], 0, None);
    OrgRoom(p.constants, PcAfter(t, Tail(p)));
    RoomConcat(t, o, Tail(p));
    Concat(t, o, Tail(p), [], 0, None);
    RoomConcat(a + b, t + o, 0);
    Concat(a + b, t + o, 0, [], 0, None);
    ConstantsSolid(p);
    ConstantsShort(p);
    Boot.ValidFits(p);
    LayRoom(ConstantBlocks(p), p.constants);
    RoomConcat(a + b + (t + o), Lay(ConstantBlocks(p)), 0);
    RoomGoes(BLANK, ProgramStmts(p));
  }

  lemma TailFits(p: Program)
    requires ValidProgram(p)
    ensures Tail(p) + p.pads + 1 < RAM_SIZE && CodeStart(p.channels, |p.channels|) == Tail(p)
  {
  }

  /** The limits and the exit statuses of pass one. */
  lemma ExitStatus(st: AsmState, name: string, data: Word, operand: string, a: nat)
    requires |st.dram| == RAM_SIZE
    ensures OK == 0 && RAM_SIZE == 2048 && Assemble(st, Org(a)) == Going(st.(pc := a))
    ensures |name| > 32 ==> Assemble(st, Label(name)) == Exit(-89)
    ensures |name| <= 32 && |st.labels| >= 2047 ==> Assemble(st, Label(name)) == Exit(-90)
    ensures |name| <= 32 && |st.labels| < 2047 ==>
              Assemble(st, Label(name)) == Going(st.(labels := st.labels + [Entry(name, st.pc)]))
    ensures st.pc >= 2047 ==> Assemble(st, Put(data, operand)) == Exit(-91)
    ensures st.pc < 2047 ==>
              Assemble(st, Put(data, operand))
              == Going(st.(dram := st.dram[st.pc := Cell(data, Some(operand))], pc := st.pc + 1))
  {
  }

  /** Labels match if they are the same and not empty. */
  lemma LabelsMatch(a: string, b: string)
    ensures LabelCompare(a, b) <==> a == b && |a| > 0
  {
  }

  /** A numeral has its value to the base 16: one more digit multiplies and adds, and anything
      else ends the number. */
  lemma {:induction false} NumeralNext(s: string, c: char, high: nat)
    requires forall i | 0 <= i < |s| :: HexDigit(s[i]).Some?
    ensures HexPrefix(s + [c], high) ==
            if HexDigit(c).Some? then 16 * HexPrefix(s, high) + HexDigit(c).value else HexPrefix(s, high)
    decreases |s|
  {
    if s == "" {
      assert s + [c] == [c] && [c][1..] == "";
    } else {
      assert (s + [c])[0] == s[0] && (s + [c])[1..] == s[1..] + [c];
      NumeralNext(s[1..], c, high * 16 + HexDigit(s[0]).value);
    }
  }

  /** What an operand is: 0x or 0X and at least one hex digit make a number. */
  lemma Numerals(s: string)
    ensures Number("0x" + s).Some? <==> |s| > 0 && HexDigit(s[0]).Some?
    ensures Number("0X" + s) == Number("0x" + s)
    ensures Number("0x" + s).Some? ==> Number("0x" + s).value == HexPrefix(s, 0)
    ensures Number(s).Some? ==> |s| > 2 && s[0] == '0' && (s[1] == 'x' || s[1] == 'X')
  {
    assert ("0x" + s)[2..] == s && ("0X" + s)[2..] == s;
  }

  /** What an operand stands for: the low half of its address, of its number, or 0. */
  lemma OperandMeans(labels: seq<Entry>, name: string)
    ensures Lookup(labels, name).Some? ==> Target(labels, name) == Lookup(labels, name).value % 0x1_0000
    ensures Lookup(labels, name).None? && Number(name).Some? ==> Target(labels, name) == Number(name).value % 0x1_0000
    ensures Lookup(labels, name).None? && Number(name).None? ==> Target(labels, name) == 0
  {
  }
}
