/** From the assembled image to the sequencer's memory: a channel's symbolic code and data,
    resolved with the final label addresses, are the fragment and data block the sequencer
    runs. */
module Linker {
  import opened Words
  import opened SeqCode
  import opened Sequencer
  import opened Assembler
  import opened TwoPass
  import opened Microcode
  import opened Service
  import L = ListWalk

  /** The words of `body`, resolved, are in memory from `a` on. */
  predicate Imaged(mem: seq<Word>, a: nat, body: seq<Stmt>, env: seq<Entry>) {
    && Puts(body) && a + |body| <= |mem|
    && forall i | 0 <= i < |body| :: mem[a + i] == Final(env, body[i].data, body[i].operand)
  }

  lemma ImagedSplit(mem: seq<Word>, a: nat, x: seq<Stmt>, y: seq<Stmt>, env: seq<Entry>)
    requires Imaged(mem, a, x + y, env)
    ensures Imaged(mem, a, x, env) && Imaged(mem, a + |x|, y, env)
  {
    hide Final;
    assert forall s | s in x :: s in x + y;
    assert forall s | s in y :: s in x + y;
    forall i | 0 <= i < |x| ensures mem[a + i] == Final(env, x[i].data, x[i].operand) {
      assert (x + y)[i] == x[i];
    }
    forall i | 0 <= i < |y| ensures mem[a + |x| + i] == Final(env, y[i].data, y[i].operand) {
      assert (x + y)[|x| + i] == y[i];
    }
  }

  lemma LinesConcat(x: seq<Line>, y: seq<Line>)
    ensures Lines(x + y) == Lines(x) + Lines(y)
  {
  }

  lemma LinesSplit(mem: seq<Word>, a: nat, x: seq<Line>, y: seq<Line>, env: seq<Entry>)
    requires Imaged(mem, a, Lines(x + y), env)
    ensures Imaged(mem, a, Lines(x), env) && Imaged(mem, a + |x|, Lines(y), env)
  {
    hide Imaged;
    LinesConcat(x, y);
    ImagedSplit(mem, a, Lines(x), Lines(y), env);
  }

  /** Block `i` of laid-out blocks. */
  lemma {:induction false} BlockImaged(mem: seq<Word>, a: nat, blocks: seq<Block>, env: seq<Entry>, i: nat)
    requires Imaged(mem, a, Body(blocks), env) && i < |blocks|
    ensures Imaged(mem, a + OffsetOf(blocks, i), blocks[i].body, env)
    decreases |blocks|
  {
    hide Imaged;
    var n := |blocks| - 1;
    ImagedSplit(mem, a, Body(blocks[..n]), blocks[n].body, env);
    OffsetAgree(blocks, n, i);
    if i == n {
      BodyLength(blocks[..n]);
    } else {
      BlockImaged(mem, a, blocks[..n], env, i);
    }
  }

  /** A line that can be resolved. */
  predicate Sound(l: Line) {
    l.0.InRange() && (l.1 != "" ==> l.0.Addressed() && l.0 == l.0.At(0))
  }

  function Resolved(l: Line, env: seq<Entry>): Instr
    requires Sound(l)
  {
    if l.1 == "" then l.0 else l.0.At(Target(env, l.1))
  }

  /** The lines resolve to the instructions of `code`. */
  predicate Yields(lines: seq<Line>, code: seq<Instr>, env: seq<Entry>) {
    |lines| == |code| && forall i | 0 <= i < |lines| :: Sound(lines[i]) && Resolved(lines[i], env) == code[i]
  }

  lemma ResolvedWord(l: Line, env: seq<Entry>)
    requires Sound(l)
    ensures Decode(Final(env, Encode(l.0), l.1)) == Some(Resolved(l, env))
  {
    hide Encode, Decode, Final, Target;
    if l.1 == "" {
      FinalPlain(env, Encode(l.0));
      DecodeEncode(l.0);
    } else {
      FinalInstr(env, l.0, l.1);
      DecodeEncode(l.0.At(Target(env, l.1)));
    }
  }

  lemma FinalPlain(env: seq<Entry>, data: Word)
    ensures Final(env, data, "") == data
  {
  }

  /** Resolved lines in memory are code in memory. */
  lemma LinesAreCode(mem: seq<Word>, a: nat, lines: seq<Line>, code: seq<Instr>, env: seq<Entry>)
    requires Imaged(mem, a, Lines(lines), env) && Yields(lines, code, env)
    ensures CodeAt(mem, a, code)
  {
    hide Encode, Decode, Final, Target, Sound, Resolved;
    forall i | 0 <= i < |code| ensures Decode(mem[a + i]) == Some(code[i]) {
      assert Lines(lines)[i] == Ins(lines[i].0, lines[i].1);
      ResolvedWord(lines[i], env);
    }
  }

  // ---- Labels ----

  /** The numbers used as operands are no labels. */
  predicate NumbersFree(env: seq<Entry>) {
    forall e | e in env :: e.name != "0x0" && e.name != "0x1" && e.name != "0x2" && e.name != "0x3"
  }

  lemma NumberTargets(env: seq<Entry>)
    requires NumbersFree(env)
    ensures Target(env, "0x0") == 0 && Target(env, "0x1") == 1 && Target(env, "0x2") == 2 && Target(env, "0x3") == 3
  {
    hide Lookup, HexPrefix;
    LookupMissing(env, "0x0");
    LookupMissing(env, "0x1");
    LookupMissing(env, "0x2");
    LookupMissing(env, "0x3");
    Digits();
  }

  lemma Digits()
    ensures "0x0"[2..] == "0" && "0x1"[2..] == "1" && "0x2"[2..] == "2" && "0x3"[2..] == "3"
    ensures HexPrefix("0", 0) == 0 && HexPrefix("1", 0) == 1 && HexPrefix("2", 0) == 2 && HexPrefix("3", 0) == 3
  {
    assert "0"[1..] == "" && "1"[1..] == "" && "2"[1..] == "" && "3"[1..] == "";
  }

  /** Every label a fragment refers to stands for the address it should. */
  predicate Linked(env: seq<Entry>, ch: L.Channel, at: Site) {
    var b := ch.base;
    && Target(env, b + "_END") == at.code + CodeLength(ch)
    && Target(env, b + "_NO_INT") == at.code + (if ch.fourWord then 18 else 8)
    && Target(env, b + "_UPDATE") == at.code + NextAt(ch) + 6
    && Target(env, b + "_SIZE") == at.data && Target(env, b + "_BASE") == at.data + 1
    && Target(env, b + "_INDEX") == at.data + 2 && Target(env, b + "_CNT") == at.data + 3
    && Target(env, b + "_LIST") == EntryAt(ch, at, 0)
    && (ch.fourWord ==>
          && Target(env, b + "_RPT_NOT_DONE") == at.code + 11
          && Target(env, b + "_NEXT_DESC") == at.code + NextAt(ch)
          && Target(env, b + "_UPDATE_B") == at.code + CodeLength(ch) - 1
          && Target(env, b + "_RPT") == at.data + 4 && Target(env, b + "_SYSA") == at.data + 6)
    && Target(env, "ZERO") == at.zero && Target(env, "MINUS1") == MinusOne(at)
    && Target(env, "THREE") == at.zero + 3 && Target(env, "FOUR") == at.zero + 4
    && Target(env, "0x0") == 0 && Target(env, "0x1") == 1 && Target(env, "0x2") == 2 && Target(env, "0x3") == 3
  }

  lemma EventMask(k: nat)
    requires k < 16
    ensures Pow2(k) < 0x10000
  {
    Powers();
    PowGrows(k, 15);
    assert Pow2(16) == 2 * Pow2(15);
  }

  lemma {:induction false} PowGrows(j: nat, k: nat)
    requires j <= k
    ensures Pow2(j) <= Pow2(k)
  {
    if j < k { PowGrows(j, k - 1); }
  }

  lemma FragmentYields(env: seq<Entry>, ch: L.Channel, at: Site)
    requires Linked(env, ch, at) && WellFormed(ch)
    ensures Yields(CheckLines(ch), CheckCode(ch, at), env)
    ensures Yields(ClearLines(ch), ClearCode(ch, at), env)
    ensures Yields(NextLines(ch), AdvanceCode(ch, at)[..6], env)
    ensures Yields(CntLines(ch), AdvanceCode(ch, at)[6..7], env)
    ensures Yields(IndexLines(ch), AdvanceCode(ch, at)[7..], env)
  {
    hide Target;
  }

  lemma Fragment4Yields(env: seq<Entry>, ch: L.Channel, at: Site)
    requires Linked(env, ch, at) && WellFormed(ch) && ch.fourWord
    ensures Yields(Resume4Lines(ch), Resume4Code(ch, at), env)
    ensures Yields(Load4Lines(ch), Load4Code(ch, at), env)
    ensures Yields(Issue4Lines(ch), Issue4Code(ch, at), env)
    ensures Yields(Save4Lines(ch), Save4Code(ch, at), env)
  {
    hide Target, Pow2;
    EventMask(ch.eventReg);
  }

  lemma Fragment3Yields(env: seq<Entry>, ch: L.Channel, at: Site)
    requires Linked(env, ch, at) && WellFormed(ch) && !ch.fourWord
    ensures Yields(Issue3Lines(ch), Issue3Code(ch, at), env)
  {
    hide Target, Pow2;
    EventMask(ch.eventReg);
  }

  lemma CodeJoin(mem: seq<Word>, a: nat, x: seq<Instr>, y: seq<Instr>)
    requires CodeAt(mem, a, x) && CodeAt(mem, a + |x|, y)
    ensures CodeAt(mem, a, x + y)
  {
    hide Decode;
    forall i | 0 <= i < |x + y| ensures Decode(mem[a + i]) == Some((x + y)[i]) {
      if i >= |x| {
        assert mem[a + i] == mem[a + |x| + (i - |x|)];
        assert (x + y)[i] == y[i - |x|];
      }
    }
  }

  /** The blocks of a 4-word fragment, where its labels are. */
  lemma Offsets4(ch: L.Channel)
    requires ch.fourWord
    ensures var bs := CodeBlocks(ch);
            && |bs| == 7
            && OffsetOf(bs, 1) == 11 && OffsetOf(bs, 2) == 18 && OffsetOf(bs, 3) == NextAt(ch)
            && OffsetOf(bs, 4) == NextAt(ch) + 6 && OffsetOf(bs, 5) == NextAt(ch) + 7
            && OffsetOf(bs, 6) == OffsetOf(bs, 7) == CodeLength(ch)
  {
    var bs := CodeBlocks(ch);
    assert OffsetOf(bs, 0) == 0;
    assert OffsetOf(bs, 1) == 11;
    assert OffsetOf(bs, 2) == 18;
    assert OffsetOf(bs, 3) == NextAt(ch);
  }

  lemma Offsets3(ch: L.Channel)
    requires !ch.fourWord
    ensures var bs := CodeBlocks(ch);
            && |bs| == 4
            && OffsetOf(bs, 1) == 8 && OffsetOf(bs, 2) == NextAt(ch) + 6
            && OffsetOf(bs, 3) == OffsetOf(bs, 4) == CodeLength(ch)
  {
    var bs := CodeBlocks(ch);
    assert OffsetOf(bs, 0) == 0;
    assert OffsetOf(bs, 1) == 8;
  }

  lemma AdvanceParts(ch: L.Channel, at: Site)
    ensures var c := AdvanceCode(ch, at); c == c[..6] + c[6..7] + c[7..] && |c[..6]| == 6 && |c[6..7]| == 1
  {
  }

  lemma Fragment4Programmed(mem: seq<Word>, ch: L.Channel, at: Site, env: seq<Entry>)
    requires ch.fourWord && WellFormed(ch) && Linked(env, ch, at) && Imaged(mem, at.code, Body(CodeBlocks(ch)), env)
    ensures Programmed(mem, ch, at)
  {
    hide Imaged, Yields, CodeAt, Linked, Body, OffsetOf, Lines;
    hide CheckLines, Resume4Lines, Load4Lines, Issue4Lines, Save4Lines, ClearLines, NextLines, CntLines, IndexLines;
    hide CheckCode, Resume4Code, Load4Code, Issue4Code, Save4Code, ClearCode, AdvanceCode;
    FragmentYields(env, ch, at);
    Fragment4Yields(env, ch, at);
    Offsets4(ch);
    Lengths(ch);
    var bs, c := CodeBlocks(ch), at.code;
    BlockImaged(mem, c, bs, env, 0);
    LinesSplit(mem, c, CheckLines(ch) + Resume4Lines(ch), Load4Lines(ch), env);
    LinesSplit(mem, c, CheckLines(ch), Resume4Lines(ch), env);
    BlockImaged(mem, c, bs, env, 1);
    BlockImaged(mem, c, bs, env, 2);
    LinesSplit(mem, c + 18, Save4Lines(ch), ClearLines(ch), env);
    BlockImaged(mem, c, bs, env, 3);
    BlockImaged(mem, c, bs, env, 4);
    BlockImaged(mem, c, bs, env, 5);
    LinesAreCode(mem, c, CheckLines(ch), CheckCode(ch, at), env);
    LinesAreCode(mem, c + 2, Resume4Lines(ch), Resume4Code(ch, at), env);
    LinesAreCode(mem, c + 5, Load4Lines(ch), Load4Code(ch, at), env);
    LinesAreCode(mem, c + 11, Issue4Lines(ch), Issue4Code(ch, at), env);
    LinesAreCode(mem, c + 18, Save4Lines(ch), Save4Code(ch, at), env);
    LinesAreCode(mem, c + 22, ClearLines(ch), ClearCode(ch, at), env);
    AdvanceProgrammed(mem, ch, at, env);
  }

  lemma Lengths(ch: L.Channel)
    ensures |CheckLines(ch)| == 2 && |Resume4Lines(ch)| == 3 && |Load4Lines(ch)| == 6 && |Issue4Lines(ch)| == 7
    ensures |Save4Lines(ch)| == 4 && |ClearLines(ch)| == ClearLength(ch) && |NextLines(ch)| == 6
    ensures |CntLines(ch)| == 1 && |IndexLines(ch)| == 1 && |Issue3Lines(ch)| == 6
    ensures OffsetOf(CodeBlocks(ch), 0) == 0
  {
  }

  lemma AdvanceProgrammed(mem: seq<Word>, ch: L.Channel, at: Site, env: seq<Entry>)
    requires WellFormed(ch) && Linked(env, ch, at)
    requires Imaged(mem, at.code + NextAt(ch), Lines(NextLines(ch)), env)
    requires Imaged(mem, at.code + NextAt(ch) + 6, Lines(CntLines(ch)), env)
    requires Imaged(mem, at.code + NextAt(ch) + 7, Lines(IndexLines(ch)), env)
    ensures CodeAt(mem, at.code + NextAt(ch), AdvanceCode(ch, at))
  {
    hide Imaged, Yields, CodeAt, Linked, Lines, NextLines, CntLines, IndexLines, AdvanceCode, NextAt;
    FragmentYields(env, ch, at);
    AdvanceParts(ch, at);
    var a, c := at.code + NextAt(ch), AdvanceCode(ch, at);
    LinesAreCode(mem, a, NextLines(ch), c[..6], env);
    LinesAreCode(mem, a + 6, CntLines(ch), c[6..7], env);
    LinesAreCode(mem, a + 7, IndexLines(ch), c[7..], env);
    CodeJoin(mem, a, c[..6], c[6..7]);
    CodeJoin(mem, a, c[..6] + c[6..7], c[7..]);
  }

  lemma Fragment3Programmed(mem: seq<Word>, ch: L.Channel, at: Site, env: seq<Entry>)
    requires !ch.fourWord && WellFormed(ch) && Linked(env, ch, at) && Imaged(mem, at.code, Body(CodeBlocks(ch)), env)
    ensures Programmed(mem, ch, at)
  {
    hide Imaged, Yields, CodeAt, Linked, Body, OffsetOf, Lines;
    hide CheckLines, Issue3Lines, ClearLines, NextLines, CntLines, IndexLines;
    hide CheckCode, Issue3Code, ClearCode, AdvanceCode;
    FragmentYields(env, ch, at);
    Fragment3Yields(env, ch, at);
    Offsets3(ch);
    Lengths(ch);
    var bs, c := CodeBlocks(ch), at.code;
    BlockImaged(mem, c, bs, env, 0);
    LinesSplit(mem, c, CheckLines(ch), Issue3Lines(ch), env);
    BlockImaged(mem, c, bs, env, 1);
    LinesSplit(mem, c + 8, ClearLines(ch), NextLines(ch), env);
    BlockImaged(mem, c, bs, env, 2);
    LinesSplit(mem, c + NextAt(ch) + 6, CntLines(ch), IndexLines(ch), env);
    LinesAreCode(mem, c, CheckLines(ch), CheckCode(ch, at), env);
    LinesAreCode(mem, c + 2, Issue3Lines(ch), Issue3Code(ch, at), env);
    LinesAreCode(mem, c + 8, ClearLines(ch), ClearCode(ch, at), env);
    AdvanceProgrammed(mem, ch, at, env);
  }

  /** The resolved code of a channel is the fragment of the sequencer model. */
  lemma FragmentProgrammed(mem: seq<Word>, ch: L.Channel, at: Site, env: seq<Entry>)
    requires WellFormed(ch) && Linked(env, ch, at) && Imaged(mem, at.code, Body(CodeBlocks(ch)), env)
    ensures Programmed(mem, ch, at)
  {
    if ch.fourWord { Fragment4Programmed(mem, ch, at, env); } else { Fragment3Programmed(mem, ch, at, env); }
  }

  // ---- Data ----

  lemma {:induction false} ListLength(ch: L.Channel, list: seq<L.SgEntry>)
    ensures |ListStmts(ch, list)| == Offset(ch, |list|) - Offset(ch, 0)
  {
    if list != [] { ListLength(ch, list[..|list| - 1]); }
  }

  lemma EntryImaged(mem: seq<Word>, ch: L.Channel, a: nat, e: L.SgEntry, env: seq<Entry>)
    requires Imaged(mem, a, EntryStmts(ch, e), env) && a + Stride(ch) < |mem|
    ensures EntryIn(mem, ch, a, e)
  {
    var body := EntryStmts(ch, e);
    assert body[0] == Plain(Low(e.addr)) && body[1] == Plain(High(e.addr)) && body[2] == Plain(e.ctl);
    assert mem[a + 0] == body[0].data && mem[a + 1] == body[1].data && mem[a + 2] == body[2].data;
    if ch.fourWord {
      assert mem[a + 3] == body[3].data;
    }
  }

  /** The list in memory, entry by entry. */
  lemma {:induction false} ListImaged(mem: seq<Word>, ch: L.Channel, at: Site, list: seq<L.SgEntry>, env: seq<Entry>)
    requires Imaged(mem, EntryAt(ch, at, 0), ListStmts(ch, list), env) && EntryAt(ch, at, |list|) < |mem|
    ensures forall i | 0 <= i < |list| :: EntryIn(mem, ch, EntryAt(ch, at, i), list[i])
  {
    hide Imaged, EntryIn;
    if list != [] {
      var n := |list| - 1;
      ImagedSplit(mem, EntryAt(ch, at, 0), ListStmts(ch, list[..n]), EntryStmts(ch, list[n]), env);
      ListLength(ch, list[..n]);
      ListImaged(mem, ch, at, list[..n], env);
      EntryImaged(mem, ch, EntryAt(ch, at, n), list[n], env);
    }
  }

  /** The blocks of the data block, where its labels are. */
  lemma DataOffsets(ch: L.Channel)
    requires |ch.list| < INT_LIMIT
    ensures var bs := DataBlocks(ch); var n := if ch.fourWord then 6 else 4;
            && |bs| == n + 1
            && OffsetOf(bs, 0) == 0 && OffsetOf(bs, 1) == 1 && OffsetOf(bs, 2) == 2 && OffsetOf(bs, 3) == 3
            && OffsetOf(bs, 4) == 4 && (ch.fourWord ==> OffsetOf(bs, 5) == 6)
            && OffsetOf(bs, n) == Offset(ch, 0) && OffsetOf(bs, n + 1) == DataLength(ch)
  {
    var bs := DataBlocks(ch);
    ListLength(ch, ch.list);
    assert OffsetOf(bs, 0) == 0 && OffsetOf(bs, 1) == 1 && OffsetOf(bs, 2) == 2 && OffsetOf(bs, 3) == 3;
    assert OffsetOf(bs, 4) == 4;
    if ch.fourWord {
      assert OffsetOf(bs, 5) == 6 && OffsetOf(bs, 6) == 8;
    }
  }

  lemma FinalLabel(env: seq<Entry>, name: string)
    requires name != ""
    ensures Final(env, 0, name) == Target(env, name)
  {
  }

  lemma OneWord(mem: seq<Word>, a: nat, s: Stmt, env: seq<Entry>)
    requires Imaged(mem, a, [s], env)
    ensures s.Put? && a < |mem| && mem[a] == Final(env, s.data, s.operand)
  {
    assert s in [s];
    assert mem[a + 0] == Final(env, [s][0].data, [s][0].operand);
  }

  lemma TwoWords(mem: seq<Word>, a: nat, s: Stmt, t: Stmt, env: seq<Entry>)
    requires Imaged(mem, a, [s, t], env)
    ensures s.Put? && t.Put? && a + 1 < |mem|
    ensures mem[a] == Final(env, s.data, s.operand) && mem[a + 1] == Final(env, t.data, t.operand)
  {
    assert s in [s, t] && t in [s, t];
    assert mem[a + 0] == Final(env, [s, t][0].data, [s, t][0].operand);
    assert mem[a + 1] == Final(env, [s, t][1].data, [s, t][1].operand);
  }

  /** The first four words of a data block. */
  lemma VariablesImaged(mem: seq<Word>, ch: L.Channel, at: Site, env: seq<Entry>)
    requires WellFormed(ch) && |ch.list| < INT_LIMIT && Target(env, ch.base + "_LIST") == EntryAt(ch, at, 0)
    requires Imaged(mem, at.data, Body(DataBlocks(ch)), env)
    ensures at.data + 3 < |mem| && mem[at.data] == mem[at.data + 3] == |ch.list|
    ensures mem[at.data + 1] == mem[at.data + 2] == EntryAt(ch, at, 0)
  {
    hide Imaged, Body, OffsetOf, Target, Final, ListStmts;
    var bs, d := DataBlocks(ch), at.data;
    DataOffsets(ch);
    BlockImaged(mem, d, bs, env, 0);
    BlockImaged(mem, d, bs, env, 1);
    BlockImaged(mem, d, bs, env, 2);
    BlockImaged(mem, d, bs, env, 3);
    OneWord(mem, d, Plain(|ch.list|), env);
    OneWord(mem, d + 1, ConstantL(ch.base + "_LIST"), env);
    OneWord(mem, d + 2, ConstantL(ch.base + "_LIST"), env);
    OneWord(mem, d + 3, Plain(|ch.list|), env);
    FinalLabel(env, ch.base + "_LIST");
    FinalPlain(env, |ch.list|);
  }

  lemma RepeatImaged(mem: seq<Word>, ch: L.Channel, at: Site, env: seq<Entry>)
    requires ch.fourWord && |ch.list| < INT_LIMIT && Imaged(mem, at.data, Body(DataBlocks(ch)), env)
    ensures at.data + 7 < |mem| && mem[at.data + 4] == mem[at.data + 6] == mem[at.data + 7] == 0
  {
    hide Imaged, Body, OffsetOf, Final, ListStmts;
    var bs, d := DataBlocks(ch), at.data;
    DataOffsets(ch);
    BlockImaged(mem, d, bs, env, 4);
    BlockImaged(mem, d, bs, env, 5);
    TwoWords(mem, d + 4, Plain(0), Plain(0), env);
    TwoWords(mem, d + 6, Plain(0), Plain(0), env);
    FinalPlain(env, 0);
  }

  /** The resolved data of a channel is a data block at the start of its walk. */
  lemma DataStored(mem: seq<Word>, ch: L.Channel, at: Site, env: seq<Entry>)
    requires WellFormed(ch) && |ch.list| < INT_LIMIT && Target(env, ch.base + "_LIST") == EntryAt(ch, at, 0)
    requires Imaged(mem, at.data, Body(DataBlocks(ch)), env) && at.data + DataLength(ch) < |mem|
    ensures Stored(mem, ch, at, L.Begin(ch))
  {
    hide Imaged, Body, OffsetOf, Target, EntryIn;
    VariablesImaged(mem, ch, at, env);
    if ch.fourWord { RepeatImaged(mem, ch, at, env); }
    DataOffsets(ch);
    BlockImaged(mem, at.data, DataBlocks(ch), env, |DataBlocks(ch)| - 1);
    ListImaged(mem, ch, at, ch.list, env);
  }

  // ---- Linking ----

  predicate Includes(env: seq<Entry>, names: seq<Entry>) { forall e | e in names :: e in env }

  lemma DeclaredTarget(env: seq<Entry>, e: Entry)
    requires Unique(env) && e in env && e.name != "" && e.address < RAM_SIZE
    ensures Target(env, e.name) == e.address
  {
    hide Lookup, Unique;
    var i :| 0 <= i < |env| && env[i] == e;
    LookupDeclared(env, i);
  }

  lemma BlockTarget(env: seq<Entry>, blocks: seq<Block>, pc: nat, i: nat)
    requires Unique(env) && Includes(env, Names(blocks, pc)) && i < |blocks|
    requires blocks[i].name != "" && pc + OffsetOf(blocks, i) < RAM_SIZE
    ensures Target(env, blocks[i].name) == pc + OffsetOf(blocks, i)
  {
    hide Unique, Target, OffsetOf, Names;
    NameAt(blocks, pc, i);
    DeclaredTarget(env, Names(blocks, pc)[i]);
  }

  lemma CodeTargets(env: seq<Entry>, ch: L.Channel, at: Site)
    requires Unique(env) && Includes(env, Names(CodeBlocks(ch), at.code)) && at.code + CodeLength(ch) < RAM_SIZE
    ensures var b := ch.base;
            && Target(env, b + "_END") == at.code + CodeLength(ch)
            && Target(env, b + "_NO_INT") == at.code + (if ch.fourWord then 18 else 8)
            && Target(env, b + "_UPDATE") == at.code + NextAt(ch) + 6
            && (ch.fourWord ==>
                  && Target(env, b + "_RPT_NOT_DONE") == at.code + 11
                  && Target(env, b + "_NEXT_DESC") == at.code + NextAt(ch)
                  && Target(env, b + "_UPDATE_B") == at.code + CodeLength(ch) - 1)
  {
    hide Unique, Includes, Target, OffsetOf, Names, Lines;
    hide CheckLines, Resume4Lines, Load4Lines, Issue4Lines, Save4Lines;
    hide Issue3Lines, ClearLines, NextLines, CntLines, IndexLines;
    var bs := CodeBlocks(ch);
    if ch.fourWord {
      Offsets4(ch);
      BlockTarget(env, bs, at.code, 1);
      BlockTarget(env, bs, at.code, 2);
      BlockTarget(env, bs, at.code, 3);
      BlockTarget(env, bs, at.code, 4);
      BlockTarget(env, bs, at.code, 5);
      BlockTarget(env, bs, at.code, 6);
    } else {
      Offsets3(ch);
      BlockTarget(env, bs, at.code, 1);
      BlockTarget(env, bs, at.code, 2);
      BlockTarget(env, bs, at.code, 3);
    }
  }

  lemma DataTargets(env: seq<Entry>, ch: L.Channel, at: Site)
    requires |ch.list| < INT_LIMIT && at.data + DataLength(ch) < RAM_SIZE
    requires Unique(env) && Includes(env, Names(DataBlocks(ch), at.data))
    ensures var b := ch.base;
            && Target(env, b + "_SIZE") == at.data && Target(env, b + "_BASE") == at.data + 1
            && Target(env, b + "_INDEX") == at.data + 2 && Target(env, b + "_CNT") == at.data + 3
            && Target(env, b + "_LIST") == EntryAt(ch, at, 0)
            && (ch.fourWord ==> Target(env, b + "_RPT") == at.data + 4 && Target(env, b + "_SYSA") == at.data + 6)
  {
    hide Unique, Includes, Target, OffsetOf, Names, ListStmts;
    var bs := DataBlocks(ch);
    DataOffsets(ch);
    BlockTarget(env, bs, at.data, 0);
    BlockTarget(env, bs, at.data, 1);
    BlockTarget(env, bs, at.data, 2);
    BlockTarget(env, bs, at.data, 3);
    BlockTarget(env, bs, at.data, 4);
    if ch.fourWord {
      BlockTarget(env, bs, at.data, 5);
      BlockTarget(env, bs, at.data, 6);
    }
  }

  /** The constants are declared from `zero` on. */
  predicate ConstantsDeclared(env: seq<Entry>, zero: nat) {
    && Entry("ZERO", zero) in env && Entry("MINUS1", zero + 2) in env
    && Entry("THREE", zero + 3) in env && Entry("FOUR", zero + 4) in env
  }

  /** If every label is declared once, a fragment's references are resolved to its own
      blocks and the constants. */
  lemma LinkedByLabels(env: seq<Entry>, ch: L.Channel, at: Site)
    requires Unique(env) && NumbersFree(env) && ConstantsDeclared(env, at.zero)
    requires |ch.list| < INT_LIMIT && at.code + CodeLength(ch) < RAM_SIZE && at.data + DataLength(ch) < RAM_SIZE
    requires at.zero + 4 < RAM_SIZE
    requires Includes(env, Names(CodeBlocks(ch), at.code)) && Includes(env, Names(DataBlocks(ch), at.data))
    ensures Linked(env, ch, at)
  {
    hide Unique, NumbersFree, Includes, Target, Names, CodeBlocks, DataBlocks;
    NumberTargets(env);
    CodeTargets(env, ch, at);
    DataTargets(env, ch, at);
    DeclaredTarget(env, Entry("ZERO", at.zero));
    DeclaredTarget(env, Entry("MINUS1", at.zero + 2));
    DeclaredTarget(env, Entry("THREE", at.zero + 3));
    DeclaredTarget(env, Entry("FOUR", at.zero + 4));
  }
}
