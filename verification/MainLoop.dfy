/** The endless main loop over any number of channels: NOP at START, the fragments one
    after another from MAIN on, and a jump back to MAIN. */
module MainLoop {
  import opened Words
  import opened SeqCode
  import opened Sequencer
  import opened ListWalk
  import opened Microcode
  import opened ChannelSteps
  import opened ChannelVisit

  /** A microcode program: its channels, the start of their data blocks, the address of
      the constants, the number of NOPs before the closing jump, and whether a debug marker
      follows the constants. */
  datatype Program = Program(channels: seq<Channel>, data: nat, constants: nat, pads: nat, marker: bool)

  const START := 0
  const MAIN := 1

  function CodeStart(chs: seq<Channel>, k: nat): (a: nat)
    requires k <= |chs|
    ensures a >= MAIN
  {
    if k == 0 then MAIN else CodeStart(chs, k - 1) + CodeLength(chs[k - 1])
  }

  function DataStart(chs: seq<Channel>, data: nat, k: nat): (a: nat)
    requires k <= |chs|
    ensures a >= data
  {
    if k == 0 then data else DataStart(chs, data, k - 1) + DataLength(chs[k - 1])
  }

  function SiteOf(p: Program, k: nat): Site
    requires k < |p.channels|
  {
    Site(CodeStart(p.channels, k), DataStart(p.channels, p.data, k), p.constants)
  }

  function Tail(p: Program): nat { CodeStart(p.channels, |p.channels|) }

  function DataEnd(p: Program): nat { DataStart(p.channels, p.data, |p.channels|) }

  /** What follows the last fragment. */
  function TailCode(p: Program): seq<Instr> {
    seq(p.pads, _ => Nop) + [Jmp(ALWAYS, 0, MAIN)]
  }

  function ConstantsLength(p: Program): nat { if p.marker then 7 else 5 }

  function CodeEnd(p: Program): nat { Tail(p) + p.pads + 1 }

  /** Code, constants and data do not overlap and lie below the last RAM word. */
  predicate Fits(p: Program) {
    && CodeEnd(p) < RAM_SIZE && DataEnd(p) < RAM_SIZE && p.constants + ConstantsLength(p) < RAM_SIZE
    && Disjoint(0, CodeEnd(p), p.data, DataEnd(p) - p.data)
    && Disjoint(0, CodeEnd(p), p.constants, ConstantsLength(p))
    && Disjoint(p.data, DataEnd(p) - p.data, p.constants, ConstantsLength(p))
  }

  predicate ValidProgram(p: Program) {
    && p.channels != [] && Fits(p)
    && forall k | 0 <= k < |p.channels| :: WellFormed(p.channels[k])
  }

  lemma {:induction false} CodeOrder(chs: seq<Channel>, i: nat, j: nat)
    requires i < j <= |chs|
    ensures CodeStart(chs, i) + CodeLength(chs[i]) <= CodeStart(chs, j)
  {
    if i < j - 1 { CodeOrder(chs, i, j - 1); }
  }

  lemma {:induction false} DataOrder(chs: seq<Channel>, data: nat, i: nat, j: nat)
    requires i < j <= |chs|
    ensures DataStart(chs, data, i) + DataLength(chs[i]) <= DataStart(chs, data, j)
  {
    if i < j - 1 { DataOrder(chs, data, i, j - 1); }
  }

  /** Every channel's site keeps clear of code, data and constants. */
  lemma SitesSeparate(p: Program, k: nat)
    requires ValidProgram(p) && k < |p.channels|
    ensures Separate(p.channels[k], SiteOf(p, k))
    ensures MAIN <= SiteOf(p, k).code && SiteOf(p, k).code + CodeLength(p.channels[k]) <= Tail(p)
    ensures p.data <= SiteOf(p, k).data && SiteOf(p, k).data + DataLength(p.channels[k]) <= DataEnd(p)
  {
    var n := |p.channels|;
    CodeOrder(p.channels, k, n);
    DataOrder(p.channels, p.data, k, n);
  }

  /** The static part of the program is in memory. */
  predicate Frame(p: Program, mem: seq<Word>) {
    && |mem| == RAM_SIZE && Holds(mem, START, Nop) && Constants(mem, p.constants)
    && CodeAt(mem, Tail(p), TailCode(p))
  }

  lemma FrameKept(p: Program, mem: seq<Word>, mem': seq<Word>, k: nat)
    requires ValidProgram(p) && k < |p.channels| && Frame(p, mem)
    requires OnlyData(mem, mem', p.channels[k], SiteOf(p, k))
    ensures Frame(p, mem')
  {
    hide DataLength, CodeLength, Constants, Decode;
    SitesSeparate(p, k);
    var ch, at := p.channels[k], SiteOf(p, k);
    OnlyDataElsewhere(mem, mem', ch, at, 0, CodeEnd(p));
    OnlyDataElsewhere(mem, mem', ch, at, p.constants, 5);
    ConstantsKept(mem, mem', p.constants);
    var code := TailCode(p);
    forall i | 0 <= i < |code| ensures Decode(mem'[Tail(p) + i]) == Some(code[i]) {
      assert mem'[Tail(p) + i] == mem[Tail(p) + i];
    }
  }

  /** A visit to channel `k` disturbs no other channel. */
  lemma OtherKept(p: Program, mem: seq<Word>, mem': seq<Word>, k: nat, j: nat, w: Walk)
    requires ValidProgram(p) && k < |p.channels| && j < |p.channels| && j != k && |mem| == RAM_SIZE
    requires OnlyData(mem, mem', p.channels[k], SiteOf(p, k))
    requires Programmed(mem, p.channels[j], SiteOf(p, j)) && Stored(mem, p.channels[j], SiteOf(p, j), w)
    ensures Programmed(mem', p.channels[j], SiteOf(p, j)) && Stored(mem', p.channels[j], SiteOf(p, j), w)
  {
    hide DataLength, CodeLength, Programmed, Stored, OnlyData, SameOn;
    SitesSeparate(p, k);
    SitesSeparate(p, j);
    var chs := p.channels;
    if j < k { DataOrder(chs, p.data, j, k); } else { DataOrder(chs, p.data, k, j); }
    OnlyDataElsewhere(mem, mem', chs[k], SiteOf(p, k), SiteOf(p, j).code, CodeLength(chs[j]));
    OnlyDataElsewhere(mem, mem', chs[k], SiteOf(p, k), SiteOf(p, j).data, DataLength(chs[j]));
    FragmentKept(mem, mem', chs[j], SiteOf(p, j));
    StoredKept(mem, mem', chs[j], SiteOf(p, j), w);
  }

  // ---- The output, channel by channel ----

  /** The commands issued by instructions in [lo, hi). */
  function Project(out: seq<Issued>, lo: nat, hi: nat): seq<Command> {
    if out == [] then []
    else
      var x := out[|out| - 1];
      Project(out[..|out| - 1], lo, hi) + if lo <= x.pc < hi then [x.command] else []
  }

  function Issues(p: Program, out: seq<Issued>, k: nat): seq<Command>
    requires k < |p.channels|
  {
    Project(out, CodeStart(p.channels, k), CodeStart(p.channels, k) + CodeLength(p.channels[k]))
  }

  /** An instruction of channel `k`'s fragment. */
  predicate Within(p: Program, pc: nat, k: nat)
    requires k < |p.channels|
  {
    CodeStart(p.channels, k) <= pc < CodeStart(p.channels, k) + CodeLength(p.channels[k])
  }

  /** Every command was issued by the fragment of some channel. */
  predicate Owned(p: Program, out: seq<Issued>) {
    forall x | x in out :: exists k | 0 <= k < |p.channels| :: Within(p, x.pc, k)
  }

  lemma OwnedAppend(p: Program, out: seq<Issued>, o: seq<Issued>, k: nat)
    requires Owned(p, out) && k < |p.channels| && From(o, p.channels[k], SiteOf(p, k))
    ensures Owned(p, out + o)
  {
    hide CodeStart, CodeLength;
    forall x | x in out + o ensures exists j | 0 <= j < |p.channels| :: Within(p, x.pc, j) {
      if x in o { assert Within(p, x.pc, k); }
    }
  }

  lemma {:induction false} ProjectAppend(a: seq<Issued>, b: seq<Issued>, lo: nat, hi: nat)
    ensures Project(a + b, lo, hi) == Project(a, lo, hi) + Project(b, lo, hi)
  {
    if b == [] {
      assert a + b == a;
    } else {
      assert (a + b)[..|a + b| - 1] == a + b[..|b| - 1];
      ProjectAppend(a, b[..|b| - 1], lo, hi);
    }
  }

  lemma {:induction false} ProjectFrom(o: seq<Issued>, lo: nat, hi: nat, lo': nat, hi': nat)
    requires forall x | x in o :: lo <= x.pc < hi
    ensures Project(o, lo, hi) == Strip(o)
    ensures hi <= lo' || hi' <= lo ==> Project(o, lo', hi') == []
  {
    if o != [] {
      var front := o[..|o| - 1];
      assert forall x | x in front :: x in o;
      ProjectFrom(front, lo, hi, lo', hi');
      assert o[|o| - 1] in o;
      assert Strip(o) == Strip(front) + [o[|o| - 1].command];
    }
  }

  /** A visit to channel `k` adds to what channel `k` has issued, and to nothing else. */
  lemma IssuesAppend(p: Program, out: seq<Issued>, o: seq<Issued>, k: nat, j: nat)
    requires k < |p.channels| && j < |p.channels| && From(o, p.channels[k], SiteOf(p, k))
    ensures Issues(p, out + o, j) == Issues(p, out, j) + if j == k then Strip(o) else []
  {
    hide CodeLength, Project, Strip;
    var chs := p.channels;
    var (lo, hi) := (CodeStart(chs, j), CodeStart(chs, j) + CodeLength(chs[j]));
    ProjectAppend(out, o, lo, hi);
    if j < k { CodeOrder(chs, j, k); } else if k < j { CodeOrder(chs, k, j); }
    ProjectFrom(o, CodeStart(chs, k), CodeStart(chs, k) + CodeLength(chs[k]), lo, hi);
  }

  // ---- Runs ----

  function NextChannel(p: Program, k: nat): nat { if k + 1 >= |p.channels| then 0 else k + 1 }

  /** The most steps from the start of a visit to channel `k` to the start of the next. */
  function TurnLength(p: Program, k: nat): nat
    requires k < |p.channels|
  {
    CodeLength(p.channels[k]) + if k + 1 == |p.channels| then p.pads + 1 else 0
  }

  /** A visit to channel `k` starts at time `n`. */
  predicate VisitAt(p: Program, init: State, f: Inputs, n: nat, k: nat)
    requires k < |p.channels|
  {
    Run(init, f, n).Some? && Run(init, f, n).value.pc == CodeStart(p.channels, k)
  }

  /** No visit starts between the two times. */
  predicate Quiet(p: Program, init: State, f: Inputs, n: nat, n': nat) {
    forall m, k | n < m < n' && 0 <= k < |p.channels| :: !VisitAt(p, init, f, m, k)
  }

  /** How many of the visits to channel `k` that start before time `n` are served. */
  function Served(p: Program, init: State, f: Inputs, n: nat, k: nat): nat
    requires k < |p.channels|
  {
    if n == 0 then 0
    else Served(p, init, f, n - 1, k)
         + if VisitAt(p, init, f, n - 1, k) && !Skips(p.channels[k], f, n - 1) then 1 else 0
  }

  /** Channel `k` has been served `v` times: its fragment is intact, its data block holds
      the walk after `v` visits, and it has issued what `v` visits issue. */
  predicate Account(p: Program, mem: seq<Word>, out: seq<Issued>, k: nat, v: nat)
    requires k < |p.channels|
  {
    var ch := p.channels[k];
    && ch.list != []
    && Programmed(mem, ch, SiteOf(p, k))
    && Stored(mem, ch, SiteOf(p, k), Visits(ch, Begin(ch), v).0)
    && Issues(p, out, k) == Visits(ch, Begin(ch), v).1
  }

  /** The program is intact, channel `k` has been served `served[k]` times, and no command has
      come from elsewhere. */
  predicate Accounts(p: Program, s: State, served: seq<nat>) {
    && Frame(p, s.mem) && |served| == |p.channels| && Owned(p, s.out)
    && forall k | 0 <= k < |p.channels| :: Account(p, s.mem, s.out, k, served[k])
  }

  /** The NOPs after the last fragment. */
  lemma {:induction false} PadsRun(r: Path, f: Inputs, n: nat, s: State, p: Program, i: nat) returns (s': State)
    requires At(r, f, n, s) && ValidProgram(p) && Frame(p, s.mem) && i <= p.pads && s.pc == Tail(p)
    ensures At(r, f, n + i, s') && s' == s.(pc := s.pc + i)
  {
    hide At, Decode;
    if i == 0 {
      s' := s;
    } else {
      var s1 := PadsRun(r, f, n, s, p, i - 1);
      s' := Next1(r, f, n + i - 1, s1, Tail(p), TailCode(p), i - 1);
    }
  }

  lemma FrameTail(p: Program, mem: seq<Word>)
    requires Frame(p, mem)
    ensures CodeAt(mem, Tail(p), TailCode(p)) && Holds(mem, Tail(p) + p.pads, Jmp(ALWAYS, 0, MAIN))
  {
    hide Decode;
    assert TailCode(p)[p.pads] == Jmp(ALWAYS, 0, MAIN);
  }

  /** The NOPs and the jump back: the only step that goes back is the last. */
  lemma TailRuns(r: Path, f: Inputs, n: nat, s: State, p: Program) returns (s': State)
    requires At(r, f, n, s) && ValidProgram(p) && Frame(p, s.mem) && s.pc == Tail(p)
    ensures At(r, f, n + p.pads, s.(pc := s.pc + p.pads))
    ensures Run(r.init, f, n + p.pads + 1) == Some(s') && s' == s.(pc := MAIN)
  {
    hide Run, Climbs, Decode, CodeAt, Frame, ValidProgram, Tail;
    FrameTail(p, s.mem);
    var s1 := PadsRun(r, f, n, s, p, p.pads);
    s' := Take(r.init, f, n + p.pads, s1, Jmp(ALWAYS, 0, MAIN));
  }

  lemma OtherAccount(p: Program, s: State, s': State, o: seq<Issued>, k: nat, j: nat, v: nat)
    requires ValidProgram(p) && k < |p.channels| && j < |p.channels| && j != k && Account(p, s.mem, s.out, j, v)
    requires |s.mem| == RAM_SIZE && OnlyData(s.mem, s'.mem, p.channels[k], SiteOf(p, k))
    requires s'.out == s.out + o && From(o, p.channels[k], SiteOf(p, k))
    ensures Account(p, s'.mem, s'.out, j, v)
  {
    hide Programmed, Stored, OnlyData, From, Issues;
    OtherKept(p, s.mem, s'.mem, k, j, Visits(p.channels[j], Begin(p.channels[j]), v).0);
    IssuesAppend(p, s.out, o, k, j);
  }

  /** A visit to channel `k`: its account grows by one visit, or not at all. */
  lemma OwnTurnRuns(r: Path, f: Inputs, n: nat, s: State, p: Program, k: nat, v: nat)
      returns (n': nat, s': State, o: seq<Issued>)
    requires ValidProgram(p) && k < |p.channels| && At(r, f, n, s) && Frame(p, s.mem) && Account(p, s.mem, s.out, k, v)
    requires s.pc == CodeStart(p.channels, k)
    ensures At(r, f, n', s') && n < n' <= n + CodeLength(p.channels[k])
    ensures s'.pc == s.pc + CodeLength(p.channels[k]) && Frame(p, s'.mem) && |s.mem| == RAM_SIZE
    ensures OnlyData(s.mem, s'.mem, p.channels[k], SiteOf(p, k))
    ensures s'.out == s.out + o && From(o, p.channels[k], SiteOf(p, k)) && (Skips(p.channels[k], f, n) ==> o == [])
    ensures Account(p, s'.mem, s'.out, k, if Skips(p.channels[k], f, n) then v else v + 1)
  {
    hide At, Skips, Frame, Programmed, Stored, OnlyData, Separate, Issues, From, Strip, Visit, CodeLength, Constants;
    var ch, at := p.channels[k], SiteOf(p, k);
    SitesSeparate(p, k);
    FrameConstants(p, s.mem);
    n', s', o := VisitRuns(r, f, n, s, ch, at, Visits(ch, Begin(ch), v).0);
    FrameKept(p, s.mem, s'.mem, k);
    IssuesAppend(p, s.out, o, k, k);
    StripNothing(o);
  }

  lemma StripNothing(o: seq<Issued>)
    ensures o == [] ==> Strip(o) == []
  {
  }

  lemma FrameConstants(p: Program, mem: seq<Word>)
    requires Frame(p, mem)
    ensures Constants(mem, p.constants) && |mem| == RAM_SIZE
  {
  }

  /** Between the start of one fragment and the next, or after the last start, none starts. */
  lemma NoStart(p: Program, k: nat, a: nat, j: nat)
    requires k < |p.channels| && j < |p.channels| && CodeStart(p.channels, k) < a
    requires k + 1 < |p.channels| ==> a < CodeStart(p.channels, k + 1)
    ensures a != CodeStart(p.channels, j)
  {
    hide CodeLength;
    if j < k {
      CodeOrder(p.channels, j, k);
    } else if k + 1 < j {
      CodeOrder(p.channels, k + 1, j);
    }
  }

  /** A climb out of a fragment meets no start of a fragment on the way. */
  lemma ClimbIsQuiet(p: Program, init: State, f: Inputs, n: nat, n': nat, k: nat)
    requires k < |p.channels| && VisitAt(p, init, f, n, k) && n < n'
    requires if k + 1 < |p.channels| then Climbs(init, f, n, n') && VisitAt(p, init, f, n', k + 1)
             else Climbs(init, f, n, n' - 1)
    ensures Quiet(p, init, f, n, n')
  {
    hide Run, Climbs, CodeStart;
    forall m, j | n < m < n' && 0 <= j < |p.channels| ensures !VisitAt(p, init, f, m, j) {
      ClimbsBetween(init, f, n, m, if k + 1 < |p.channels| then n' else n' - 1);
      NoStart(p, k, Run(init, f, m).value.pc, j);
    }
  }

  /** One visit, and the way to the next fragment. */
  lemma TurnRuns(init: State, f: Inputs, n: nat, s: State, p: Program, k: nat, served: seq<nat>)
      returns (n': nat, s': State)
    requires ValidProgram(p) && k < |p.channels| && Run(init, f, n) == Some(s) && Accounts(p, s, served)
    requires s.pc == CodeStart(p.channels, k)
    ensures Run(init, f, n') == Some(s') && n < n' <= n + TurnLength(p, k)
    ensures s'.pc == CodeStart(p.channels, NextChannel(p, k))
    ensures Accounts(p, s', if Skips(p.channels[k], f, n) then served else served[k := served[k] + 1])
    ensures Quiet(p, init, f, n, n')
    ensures Skips(p.channels[k], f, n) ==> s'.out == s.out
  {
    hide Run, Climbs, Skips, Frame, Account, OnlyData, From, CodeLength, Quiet, Owned;
    PathStarts(init, f, n, s);
    var n1, s1, o := OwnTurnRuns(Path(init, n), f, n, s, p, k, served[k]);
    forall j | 0 <= j < |p.channels| && j != k ensures Account(p, s1.mem, s1.out, j, served[j]) {
      OtherAccount(p, s, s1, o, k, j, served[j]);
    }
    OwnedAppend(p, s.out, o, k);
    n', s' := n1, s1;
    if k + 1 == |p.channels| {
      s' := TailRuns(Path(init, n), f, n1, s1, p);
      n' := n1 + p.pads + 1;
    }
    ClimbIsQuiet(p, init, f, n, n', k);
  }

  lemma PathStarts(init: State, f: Inputs, n: nat, s: State)
    requires Run(init, f, n) == Some(s)
    ensures At(Path(init, n), f, n, s)
  {
  }

  /** The program has just been loaded, and the sequencer started at START. The registers
      and every word the program does not use are arbitrary. */
  predicate Boot(p: Program, init: State) {
    && init.pc == START && init.out == [] && Frame(p, init.mem)
    && forall k | 0 <= k < |p.channels| ::
         && Programmed(init.mem, p.channels[k], SiteOf(p, k))
         && Stored(init.mem, p.channels[k], SiteOf(p, k), Begin(p.channels[k]))
  }

  function ServedEach(p: Program, init: State, f: Inputs, n: nat): seq<nat> {
    seq(|p.channels|, k requires 0 <= k < |p.channels| => Served(p, init, f, n, k))
  }

  /** A visit to channel `k` starts at time `n`, and the accounts are those of the visits
      served before. */
  predicate Settled(p: Program, init: State, f: Inputs, n: nat, k: nat) {
    && k < |p.channels| && VisitAt(p, init, f, n, k)
    && Accounts(p, Run(init, f, n).value, ServedEach(p, init, f, n))
  }

  lemma BootRuns(p: Program, init: State, f: Inputs)
    requires ValidProgram(p) && Boot(p, init)
    ensures Settled(p, init, f, 1, 0)
  {
    hide Programmed, Stored, Decode, Constants, Skips;
    var s := Take(init, f, 0, init, Nop);
    forall k | 0 <= k < |p.channels| ensures Account(p, s.mem, s.out, k, 0) && Served(p, init, f, 1, k) == 0 {
      assert WellFormed(p.channels[k]);
      assert !VisitAt(p, init, f, 0, k);
      assert Served(p, init, f, 0, k) == 0;
    }
  }

  lemma {:induction false} ServedQuiet(p: Program, init: State, f: Inputs, t: nat, n: nat, k: nat)
    requires Quiet(p, init, f, t, n) && t < n && k < |p.channels|
    ensures Served(p, init, f, n, k) == Served(p, init, f, t + 1, k)
    decreases n
  {
    hide VisitAt, Skips;
    if t + 1 < n {
      ServedQuiet(p, init, f, t, n - 1, k);
      assert !VisitAt(p, init, f, n - 1, k);
    }
  }

  /** Channels start at different places. */
  lemma OneVisit(p: Program, init: State, f: Inputs, n: nat, j: nat, k: nat)
    requires j < |p.channels| && k < |p.channels| && VisitAt(p, init, f, n, j) && VisitAt(p, init, f, n, k)
    ensures j == k
  {
    hide Run, CodeLength;
    if j < k { CodeOrder(p.channels, j, k); } else if k < j { CodeOrder(p.channels, k, j); }
  }

  /** What the visit that starts at time `t` adds. */
  lemma ServedNext(p: Program, init: State, f: Inputs, t: nat, n: nat, j: nat, k: nat)
    requires j < |p.channels| && k < |p.channels| && VisitAt(p, init, f, t, j) && Quiet(p, init, f, t, n) && t < n
    ensures Served(p, init, f, n, k)
         == Served(p, init, f, t, k) + if k == j && !Skips(p.channels[j], f, t) then 1 else 0
  {
    hide VisitAt, Skips, Quiet;
    ServedQuiet(p, init, f, t, n, k);
    if VisitAt(p, init, f, t, k) { OneVisit(p, init, f, t, j, k); }
  }

  /** One more visit. */
  lemma NextVisit(p: Program, init: State, f: Inputs, t: nat, k: nat) returns (t': nat)
    requires ValidProgram(p) && Settled(p, init, f, t, k)
    ensures Settled(p, init, f, t', NextChannel(p, k)) && t < t' <= t + TurnLength(p, k) && Quiet(p, init, f, t, t')
    ensures Skips(p.channels[k], f, t) ==> Run(init, f, t').value.out == Run(init, f, t).value.out
  {
    hide Run, Accounts, TurnLength, Skips, Served, Quiet, CodeStart;
    var served := ServedEach(p, init, f, t);
    AccountsCount(p, Run(init, f, t).value, served);
    var s';
    t', s' := TurnRuns(init, f, t, Run(init, f, t).value, p, k, served);
    forall j | 0 <= j < |p.channels|
      ensures Served(p, init, f, t', j) == served[j] + if j == k && !Skips(p.channels[k], f, t) then 1 else 0
    {
      ServedNext(p, init, f, t, t', k, j);
    }
    assert ServedEach(p, init, f, t') == if Skips(p.channels[k], f, t) then served else served[k := served[k] + 1];
  }

  lemma AccountsCount(p: Program, s: State, served: seq<nat>)
    requires Accounts(p, s, served)
    ensures |served| == |p.channels|
  {
  }

  /** The run makes visit after visit, for ever: every time after the first step lies in a
      visit, and the accounts are right at its start and at the start of the next. */
  lemma {:induction false} LoopRuns(p: Program, init: State, f: Inputs, n: nat) returns (t: nat, k: nat, t': nat)
    requires ValidProgram(p) && Boot(p, init) && n > 0
    ensures Settled(p, init, f, t, k) && Settled(p, init, f, t', NextChannel(p, k))
    ensures t <= n < t' <= t + TurnLength(p, k) && Quiet(p, init, f, t, t')
    ensures Skips(p.channels[k], f, t) ==> Run(init, f, t').value.out == Run(init, f, t).value.out
  {
    hide Boot, Settled, ValidProgram, Run, Skips, Quiet, TurnLength;
    if n == 1 {
      BootRuns(p, init, f);
      SettledChannel(p, init, f, 1, 0);
      t, k := 1, 0;
      t' := NextVisit(p, init, f, t, k);
    } else {
      t, k, t' := LoopRuns(p, init, f, n - 1);
      if t' == n {
        t, k := t', NextChannel(p, k);
        SettledChannel(p, init, f, t, k);
        t' := NextVisit(p, init, f, t, k);
      }
    }
  }

  lemma SettledChannel(p: Program, init: State, f: Inputs, n: nat, k: nat)
    requires Settled(p, init, f, n, k)
    ensures k < |p.channels|
  {
  }

  /** Whenever a visit starts, the accounts are right. */
  lemma VisitSettled(p: Program, init: State, f: Inputs, n: nat, k: nat)
    requires ValidProgram(p) && Boot(p, init) && k < |p.channels| && VisitAt(p, init, f, n, k)
    ensures n > 0 && Settled(p, init, f, n, k)
  {
    hide ValidProgram, Frame, Accounts, Skips, TurnLength, Programmed, Stored;
    if n > 0 {
      var t, j, t' := LoopRuns(p, init, f, n);
      assert t == n;
      OneVisit(p, init, f, n, j, k);
    }
  }

  // ---- What the sequencer issues ----

  /** Whenever a visit starts, every channel has issued exactly the commands its list asks
      for in as many visits as it was served, whatever the inputs were and whatever the
      other channels did; and nothing else has been issued. */
  lemma IssuesDue(p: Program, init: State, f: Inputs, n: nat, j: nat, k: nat)
    requires ValidProgram(p) && Boot(p, init) && j < |p.channels| && VisitAt(p, init, f, n, j) && k < |p.channels|
    ensures Issues(p, Run(init, f, n).value.out, k) == Due(p.channels[k], Served(p, init, f, n, k))
    ensures Owned(p, Run(init, f, n).value.out)
  {
    hide Run, Boot, ValidProgram, Frame, Programmed, Stored, Due, Issues, Served, Owned;
    VisitSettled(p, init, f, n, j);
    AccountDue(p, Run(init, f, n).value, ServedEach(p, init, f, n), k);
  }

  lemma AccountDue(p: Program, s: State, served: seq<nat>, k: nat)
    requires Accounts(p, s, served) && k < |p.channels|
    ensures p.channels[k].list != [] && Issues(p, s.out, k) == Due(p.channels[k], served[k]) && Owned(p, s.out)
  {
    hide Frame, Programmed, Stored, Due, Issues, Owned;
    assert Account(p, s.mem, s.out, k, served[k]);
    VisitsAreDue(p.channels[k], served[k]);
  }

  lemma IssuesGrow(p: Program, a: seq<Issued>, b: seq<Issued>, k: nat)
    requires k < |p.channels| && a <= b
    ensures Issues(p, a, k) <= Issues(p, b, k)
  {
    hide CodeStart, CodeLength, Project;
    assert b == a + b[|a|..];
    ProjectAppend(a, b[|a|..], CodeStart(p.channels, k), CodeStart(p.channels, k) + CodeLength(p.channels[k]));
  }

  /** The visits less the last one. */
  function Before(v: nat): nat { if v == 0 then 0 else v - 1 }

  /** Safety at every instant of every run: the sequencer is never stuck, and each channel
      has issued at most what its list asks for in the visits served so far, and at least
      what it asks for in all of them but the last, which may be in progress; and no command
      has been issued that belongs to no channel. */
  lemma SafeAlways(p: Program, init: State, f: Inputs, n: nat, k: nat)
    requires ValidProgram(p) && Boot(p, init) && k < |p.channels|
    ensures Run(init, f, n).Some? && Owned(p, Run(init, f, n).value.out)
    ensures var issued := Issues(p, Run(init, f, n).value.out, k);
            var v := Served(p, init, f, n, k);
            Due(p.channels[k], Before(v)) <= issued <= Due(p.channels[k], v)
  {
    hide Boot, Run, Accounts, Issues, Due, Fits, Served, Quiet, Skips, TurnLength, Owned;
    if n == 0 {
      NothingYet(p, init, f, k);
    } else {
      var t, j, t' := LoopRuns(p, init, f, n);
      OutputGrows(init, f, n, t');
      OutputGrows(init, f, t, n);
      IssuesDue(p, init, f, t, j, k);
      IssuesDue(p, init, f, t', NextChannel(p, j), k);
      OwnedPrefix(p, Run(init, f, n).value.out, Run(init, f, t').value.out);
      IssuesGrow(p, Run(init, f, t).value.out, Run(init, f, n).value.out, k);
      IssuesGrow(p, Run(init, f, n).value.out, Run(init, f, t').value.out, k);
      ServedNext(p, init, f, t, t', j, k);
      var v := Served(p, init, f, t, k);
      DueGrows(p.channels[k], Before(v), v);
      if t < n {
        QuietPart(p, init, f, t, n, t');
        ServedNext(p, init, f, t, n, j, k);
      }
    }
  }

  lemma OwnedPrefix(p: Program, a: seq<Issued>, b: seq<Issued>)
    requires a <= b && Owned(p, b)
    ensures Owned(p, a)
  {
    hide Within;
    assert forall x | x in a :: x in b;
  }

  lemma QuietPart(p: Program, init: State, f: Inputs, t: nat, n: nat, t': nat)
    requires Quiet(p, init, f, t, t') && n <= t'
    ensures Quiet(p, init, f, t, n)
  {
    hide VisitAt;
  }

  lemma NothingYet(p: Program, init: State, f: Inputs, k: nat)
    requires ValidProgram(p) && Boot(p, init) && k < |p.channels|
    ensures p.channels[k].list != [] && Due(p.channels[k], 0) == [] && Served(p, init, f, 0, k) == 0
    ensures Run(init, f, 0) == Some(init) && Issues(p, init.out, k) == [] && Owned(p, init.out)
  {
    hide Fits, Frame, Programmed, Stored;
    DueNothing(p.channels[k]);
  }
}
