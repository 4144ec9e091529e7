/** From the calls of the generating program to the commands the sequencer issues. */
module EndToEnd {
  import opened Words
  import opened SeqCode
  import opened Sequencer
  import opened Assembler
  import opened TwoPass
  import opened MainLoop
  import opened Compile
  import opened BusModel
  import Boot
  import L = ListWalk

  /** `ram` is what the descriptor RAM at byte address `base` holds once the bus commands
      have been executed; it held `was` before. */
  predicate Loaded(cmds: seq<Cmd>, base: Long, was: seq<Word>, ram: seq<Word>)
    requires base + 4 * RAM_SIZE <= LONG_LIMIT
  {
    && |was| == |ram| == RAM_SIZE
    && forall a, j | 0 <= a < RAM_SIZE && 0 <= j < 4 ::
         ByteOf(ram[a], j) == ByteAfter(cmds, base + 4 * a + j, ByteOf(was[a], j))
  }

  /** The word of one cell. */
  lemma LoadedWord(base: Long, dram: seq<Cell>, was: seq<Word>, ram: seq<Word>, a: nat)
    requires base % 4 == 0 && base + 4 * RAM_SIZE <= LONG_LIMIT && |dram| == RAM_SIZE && a < RAM_SIZE
    requires Loaded(Writes(base, dram), base, was, ram)
    ensures ram[a] == if dram[a].operand.Some? then dram[a].data else was[a]
  {
    hide ByteOf, ByteAfter, Writes;
    forall j | 0 <= j < 4
      ensures ByteOf(ram[a], j) == if dram[a].operand.Some? then ByteOf(dram[a].data, j) else ByteOf(was[a], j)
    {
      WritesLoad(base, dram, base + 4 * a + j, ByteOf(was[a], j));
      CellOf(base, a, j);
    }
    BytesCompose(ram[a]);
    BytesCompose(dram[a].data);
    BytesCompose(was[a]);
  }

  lemma CellOf(base: Long, a: nat, j: nat)
    requires base % 4 == 0 && j < 4
    ensures (base + 4 * a + j - base) / 4 == a && (base + 4 * a + j) % 4 == j
  {
  }

  /** The image arrives in the descriptor RAM. */
  lemma ImageArrives(p: Program, base: Long, st: AsmState, was: seq<Word>, ram: seq<Word>)
    requires Small(p.channels) && base % 4 == 0 && base + 4 * RAM_SIZE <= LONG_LIMIT
    requires AssembleAll(BLANK, ProgramStmts(p)) == Going(st)
    requires Loaded(Writes(base, PassTwo(st)), base, was, ram)
    ensures Boot.HasImage(ram, p)
  {
    hide Direct, ProgramStmts, Labels, Loaded, Resolve, AssembleAll, Writes;
    LoadedLength(Writes(base, PassTwo(st)), base, was, ram);
    AssembledLength(ProgramStmts(p));
    var env := Labels(p);
    forall x | 0 <= x < RAM_SIZE && Direct(ProgramStmts(p), 0, env, x, None).Some?
      ensures ram[x] == Direct(ProgramStmts(p), 0, env, x, None).value
    {
      ProgramDirect(p, env, x);
      TwoPassIsDirect(ProgramStmts(p), x);
      LoadedWord(base, PassTwo(st), was, ram, x);
    }
  }

  lemma LoadedLength(cmds: seq<Cmd>, base: Long, was: seq<Word>, ram: seq<Word>)
    requires base + 4 * RAM_SIZE <= LONG_LIMIT && Loaded(cmds, base, was, ram)
    ensures |was| == |ram| == RAM_SIZE
  {
  }

  lemma AssembledLength(stmts: seq<Stmt>)
    requires AssembleAll(BLANK, stmts).Going?
    ensures |AssembleAll(BLANK, stmts).st.dram| == RAM_SIZE
  {
  }

  /** Assembled, written out and started, the program is a start of the main loop, whatever
      the descriptor RAM and the registers held before. */
  lemma Booted(p: Program, base: Long, st: AsmState, was: seq<Word>, init: State)
    requires Small(p.channels) && ValidProgram(p) && Boot.CleanLabels(p)
    requires base % 4 == 0 && base + 4 * RAM_SIZE <= LONG_LIMIT
    requires AssembleAll(BLANK, ProgramStmts(p)) == Going(st)
    requires Loaded(Writes(base, PassTwo(st)), base, was, init.mem)
    requires init.pc == START && init.out == []
    ensures MainLoop.Boot(p, init)
  {
    hide Loaded, Boot.HasImage, Boot.CleanLabels, AssembleAll, Writes, PassTwo, MainLoop.Boot;
    ImageArrives(p, base, st, was, init.mem);
    Boot.ImageBoots(init, p);
  }

  /** The whole chain. Whatever the condition lines and queues do, after the program has been
      assembled, written out and started, the sequencer is never stuck, and at every instant
      each channel has issued what its list asks for in the visits it was served, the last of
      which may be in progress, and nothing else has been issued. */
  lemma Delivered(p: Program, base: Long, st: AsmState, was: seq<Word>, init: State, f: Inputs, n: nat, k: nat)
    requires Small(p.channels) && ValidProgram(p) && Boot.CleanLabels(p)
    requires base % 4 == 0 && base + 4 * RAM_SIZE <= LONG_LIMIT
    requires AssembleAll(BLANK, ProgramStmts(p)) == Going(st)
    requires Loaded(Writes(base, PassTwo(st)), base, was, init.mem)
    requires init.pc == START && init.out == [] && k < |p.channels|
    ensures Run(init, f, n).Some? && Owned(p, Run(init, f, n).value.out)
    ensures var issued := Issues(p, Run(init, f, n).value.out, k);
            var v := Served(p, init, f, n, k);
            L.Due(p.channels[k], Before(v)) <= issued <= L.Due(p.channels[k], v)
  {
    hide Loaded, Boot.HasImage, Boot.CleanLabels, AssembleAll, Writes, PassTwo;
    hide MainLoop.Boot, Run, Served, Issues, L.Due, Owned;
    Booted(p, base, st, was, init);
    SafeAlways(p, init, f, n, k);
  }
}
