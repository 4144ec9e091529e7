/** The blocks of a channel's fragment, run instruction by instruction. Every lemma starts
    from a run of the sequencer that has reached state `s` at time `n`, and returns the
    time and state in which that run leaves the block. */
module ChannelSteps {
  import opened Words
  import opened SeqCode
  import opened Sequencer
  import opened ListWalk
  import opened Microcode

  /** A run from `init`, watched from time `since` on. */
  datatype Path = Path(init: State, since: nat)

  /** The program counter rises with every step from time `a` to time `n`. */
  predicate Climbs(init: State, f: Inputs, a: nat, n: nat) {
    a <= n && (a < n ==>
      && Run(init, f, n - 1).Some? && Run(init, f, n).Some?
      && Run(init, f, n - 1).value.pc < Run(init, f, n).value.pc
      && Climbs(init, f, a, n - 1))
  }

  /** The run is in state `s` at time `n`, and has come there without going back. */
  predicate At(r: Path, f: Inputs, n: nat, s: State) {
    Run(r.init, f, n) == Some(s) && Climbs(r.init, f, r.since, n)
  }

  /** Between two times of a climb the program counter lies between those of the two. */
  lemma {:induction false} ClimbsBetween(init: State, f: Inputs, a: nat, m: nat, n: nat)
    requires Climbs(init, f, a, n) && a <= m <= n && Run(init, f, a).Some?
    ensures Run(init, f, m).Some? && Run(init, f, n).Some?
    ensures Run(init, f, a).value.pc + (m - a) <= Run(init, f, m).value.pc
    ensures Run(init, f, m).value.pc + (n - m) <= Run(init, f, n).value.pc
    decreases n
  {
    hide Run;
    if m < n {
      ClimbsBetween(init, f, a, m, n - 1);
    } else if a < n {
      ClimbsBetween(init, f, a, n - 1, n - 1);
    }
  }

  /** The next instruction of a block, if it does not go back. */
  lemma Next1(r: Path, f: Inputs, n: nat, s: State, a: nat, code: seq<Instr>, i: nat) returns (s': State)
    requires At(r, f, n, s) && CodeAt(s.mem, a, code) && i < |code| && s.pc == a + i
    requires Exec(code[i], s, f(n)).Some? && s.pc < Exec(code[i], s, f(n)).value.pc
    ensures At(r, f, n + 1, s') && Exec(code[i], s, f(n)) == Some(s')
  {
    hide Decode, Run;
    s' := Take(r.init, f, n, s, code[i]);
  }

  /** A write elsewhere leaves a piece of code alone. */
  lemma CodeKept(mem: seq<Word>, x: nat, v: Word, a: nat, code: seq<Instr>)
    requires CodeAt(mem, a, code) && x < |mem| && Disjoint(x, 1, a, |code|)
    ensures CodeAt(mem[x := v], a, code)
  {
  }

  lemma LoadRaRuns(r: Path, f: Inputs, n: nat, s: State, a: nat, code: seq<Instr>, i: nat) returns (s': State)
    requires At(r, f, n, s) && CodeAt(s.mem, a, code) && i < |code| && s.pc == a + i
    requires code[i].LoadRa? && code[i].addr < |s.mem|
    ensures At(r, f, n + 1, s')
    ensures s' == s.(pc := s.pc + 1, ra := s.mem[code[i].addr])
  {
    hide Decode, Run;
    s' := Take(r.init, f, n, s, code[i]);
  }

  lemma LoadRbRuns(r: Path, f: Inputs, n: nat, s: State, a: nat, code: seq<Instr>, i: nat) returns (s': State)
    requires At(r, f, n, s) && CodeAt(s.mem, a, code) && i < |code| && s.pc == a + i
    requires code[i].LoadRb? && code[i].addr < |s.mem|
    ensures At(r, f, n + 1, s')
    ensures s' == s.(pc := s.pc + 1, rb := s.mem[code[i].addr])
  {
    hide Decode, Run;
    s' := Take(r.init, f, n, s, code[i]);
  }

  lemma AddRaRuns(r: Path, f: Inputs, n: nat, s: State, a: nat, code: seq<Instr>, i: nat) returns (s': State)
    requires At(r, f, n, s) && CodeAt(s.mem, a, code) && i < |code| && s.pc == a + i
    requires code[i].AddRa? && code[i].addr < |s.mem|
    ensures At(r, f, n + 1, s')
    ensures s' == s.(pc := s.pc + 1, ra := (s.ra + s.mem[code[i].addr]) % WORD_LIMIT)
  {
    hide Decode, Run;
    s' := Take(r.init, f, n, s, code[i]);
  }

  lemma AddRbRuns(r: Path, f: Inputs, n: nat, s: State, a: nat, code: seq<Instr>, i: nat) returns (s': State)
    requires At(r, f, n, s) && CodeAt(s.mem, a, code) && i < |code| && s.pc == a + i
    requires code[i].AddRb? && code[i].addr < |s.mem|
    ensures At(r, f, n + 1, s')
    ensures s' == s.(pc := s.pc + 1, rb := (s.rb + s.mem[code[i].addr]) % WORD_LIMIT)
  {
    hide Decode, Run;
    s' := Take(r.init, f, n, s, code[i]);
  }

  lemma StoreRaRuns(r: Path, f: Inputs, n: nat, s: State, a: nat, code: seq<Instr>, i: nat) returns (s': State)
    requires At(r, f, n, s) && CodeAt(s.mem, a, code) && i < |code| && s.pc == a + i
    requires code[i].StoreRa? && code[i].addr < |s.mem|
    ensures At(r, f, n + 1, s')
    ensures s' == s.(pc := s.pc + 1, mem := s.mem[code[i].addr := s.ra])
  {
    hide Decode, Run;
    s' := Take(r.init, f, n, s, code[i]);
  }

  lemma StoreRbRuns(r: Path, f: Inputs, n: nat, s: State, a: nat, code: seq<Instr>, i: nat) returns (s': State)
    requires At(r, f, n, s) && CodeAt(s.mem, a, code) && i < |code| && s.pc == a + i
    requires code[i].StoreRb? && code[i].addr < |s.mem|
    ensures At(r, f, n + 1, s')
    ensures s' == s.(pc := s.pc + 1, mem := s.mem[code[i].addr := s.rb])
  {
    hide Decode, Run;
    s' := Take(r.init, f, n, s, code[i]);
  }

  lemma LoadSysRuns(r: Path, f: Inputs, n: nat, s: State, a: nat, code: seq<Instr>, i: nat) returns (s': State)
    requires At(r, f, n, s) && CodeAt(s.mem, a, code) && i < |code| && s.pc == a + i
    requires code[i].LoadSysAddr? && Effective(s, code[i].r, code[i].addr).Some?
    requires Effective(s, code[i].r, code[i].addr).value + 1 < |s.mem|
    ensures At(r, f, n + 1, s')
    ensures var x := Effective(s, code[i].r, code[i].addr).value;
            s' == s.(pc := s.pc + 1, sys := Join(s.mem[x], s.mem[x + 1]))
  {
    hide Decode, Run;
    s' := Take(r.init, f, n, s, code[i]);
  }

  lemma StoreSysRuns(r: Path, f: Inputs, n: nat, s: State, a: nat, code: seq<Instr>, i: nat) returns (s': State)
    requires At(r, f, n, s) && CodeAt(s.mem, a, code) && i < |code| && s.pc == a + i
    requires code[i].StoreSysAddr? && Effective(s, code[i].r, code[i].addr).Some?
    requires Effective(s, code[i].r, code[i].addr).value + 1 < |s.mem|
    ensures At(r, f, n + 1, s')
    ensures var x := Effective(s, code[i].r, code[i].addr).value;
            s' == s.(pc := s.pc + 1, mem := s.mem[x := Low(s.sys)][x + 1 := High(s.sys)])
  {
    hide Decode, Run;
    s' := Take(r.init, f, n, s, code[i]);
  }

  lemma AddSysRuns(r: Path, f: Inputs, n: nat, s: State, a: nat, code: seq<Instr>, i: nat) returns (s': State)
    requires At(r, f, n, s) && CodeAt(s.mem, a, code) && i < |code| && s.pc == a + i
    requires code[i].AddSysAddr?
    ensures At(r, f, n + 1, s')
    ensures s' == s.(pc := s.pc + 1, sys := (s.sys + code[i].data) % LONG_LIMIT)
  {
    hide Decode, Run;
    s' := Take(r.init, f, n, s, code[i]);
  }

  lemma LoadXferRuns(r: Path, f: Inputs, n: nat, s: State, a: nat, code: seq<Instr>, i: nat) returns (s': State)
    requires At(r, f, n, s) && CodeAt(s.mem, a, code) && i < |code| && s.pc == a + i
    requires code[i].LoadXferCtl? && Effective(s, code[i].r, code[i].addr).Some?
    requires Effective(s, code[i].r, code[i].addr).value < |s.mem|
    ensures At(r, f, n + 1, s')
    ensures var ctl := s.mem[Effective(s, code[i].r, code[i].addr).value];
            s' == s.(pc := s.pc + 1, c := CBit(ctl), out := s.out + Tag(s.pc, Start(s.sys, ctl)))
  {
    hide Decode, Run;
    s' := Take(r.init, f, n, s, code[i]);
  }

  lemma SignalRuns(r: Path, f: Inputs, n: nat, s: State, a: nat, code: seq<Instr>, i: nat) returns (s': State)
    requires At(r, f, n, s) && CodeAt(s.mem, a, code) && i < |code| && s.pc == a + i
    requires code[i].SigEvent?
    ensures At(r, f, n + 1, s')
    ensures s' == s.(pc := s.pc + 1, out := s.out + Tag(s.pc, [Signal(code[i].s, code[i].a, code[i].mask)]))
  {
    hide Decode, Run;
    s' := Take(r.init, f, n, s, code[i]);
  }

  lemma JmpRuns(r: Path, f: Inputs, n: nat, s: State, a: nat, code: seq<Instr>, i: nat) returns (s': State)
    requires At(r, f, n, s) && CodeAt(s.mem, a, code) && i < |code| && s.pc == a + i
    requires code[i].Jmp? && Taken(s, code[i].c, code[i].ext, f(n)).Some? && s.pc < code[i].addr
    ensures At(r, f, n + 1, s')
    ensures s' == s.(pc := if Taken(s, code[i].c, code[i].ext, f(n)).value then code[i].addr else s.pc + 1)
  {
    hide Decode, Run;
    s' := Take(r.init, f, n, s, code[i]);
  }

  /** _NEXT_DESC to _UPDATE: advance the list pointer and counter, or restart them. */
  lemma CountRuns(r: Path, f: Inputs, n: nat, s: State, ch: Channel, at: Site, size: Word, base: Word, cnt: Word)
      returns (n': nat, s': State)
    requires At(r, f, n, s) && CodeAt(s.mem, at.code + NextAt(ch), AdvanceCode(ch, at))
    requires Constants(s.mem, at.zero) && Separate(ch, at) && |s.mem| == RAM_SIZE
    requires s.mem[at.data] == size && s.mem[at.data + 1] == base && s.mem[at.data + 3] == cnt > 0
    requires s.pc == at.code + NextAt(ch) && s.rb < RAM_SIZE
    ensures At(r, f, n', s') && n < n' <= n + 6
    ensures s'.pc == s.pc + 6 && s'.out == s.out && s'.mem == s.mem
    ensures s'.ra == (if cnt == 1 then size else cnt - 1) && s'.rb == if cnt == 1 then base else s.rb + Stride(ch)
  {
    var code := AdvanceCode(ch, at);
    var a := s.pc;
    hide CodeAt, At, Exec, NextAt;
    var s1 := AddRbRuns(r, f, n, s, a, code, 0);
    var s2 := LoadRaRuns(r, f, n + 1, s1, a, code, 1);
    var s3 := AddRaRuns(r, f, n + 2, s2, a, code, 2);
    s' := JmpRuns(r, f, n + 3, s3, a, code, 3);
    n' := n + 4;
    if cnt == 1 {
      var s5 := LoadRaRuns(r, f, n + 4, s', a, code, 4);
      s' := LoadRbRuns(r, f, n + 5, s5, a, code, 5);
      n' := n + 6;
    }
  }

  /** _UPDATE to _END: store the list counter and pointer. */
  lemma UpdateRuns(r: Path, f: Inputs, n: nat, s: State, a: nat, ch: Channel, at: Site) returns (s': State)
    requires At(r, f, n, s) && CodeAt(s.mem, a, AdvanceCode(ch, at)) && s.pc == a + 6
    requires at.data + 3 < |s.mem| && Disjoint(at.data + 3, 1, a, 8)
    ensures At(r, f, n + 2, s') && s'.pc == s.pc + 2 && s'.out == s.out
    ensures s'.mem == s.mem[at.data + 3 := s.ra][at.data + 2 := s.rb]
  {
    var code := AdvanceCode(ch, at);
    hide CodeAt, At, Exec;
    var s7 := StoreRaRuns(r, f, n, s, a, code, 6);
    CodeKept(s.mem, at.data + 3, s.ra, a, code);
    s' := StoreRbRuns(r, f, n + 1, s7, a, code, 7);
  }

  /** _NEXT_DESC to _END. */
  lemma AdvanceRuns(r: Path, f: Inputs, n: nat, s: State, ch: Channel, at: Site, size: Word, base: Word, cnt: Word)
      returns (n': nat, s': State)
    requires At(r, f, n, s) && CodeAt(s.mem, at.code + NextAt(ch), AdvanceCode(ch, at))
    requires Constants(s.mem, at.zero) && Separate(ch, at) && |s.mem| == RAM_SIZE
    requires s.mem[at.data] == size && s.mem[at.data + 1] == base && s.mem[at.data + 3] == cnt > 0
    requires s.pc == at.code + NextAt(ch) && s.rb < RAM_SIZE
    ensures At(r, f, n', s') && n < n' <= n + 8
    ensures s'.pc == at.code + CodeLength(ch) && s'.out == s.out
    ensures s'.mem == s.mem[at.data + 3 := if cnt == 1 then size else cnt - 1]
                           [at.data + 2 := if cnt == 1 then base else s.rb + Stride(ch)]
  {
    hide CodeAt, At, AdvanceCode, Constants;
    var n6, s6 := CountRuns(r, f, n, s, ch, at, size, base, cnt);
    assert Disjoint(at.data + 3, 1, s.pc, 8);
    s' := UpdateRuns(r, f, n6, s6, s.pc, ch, at);
    n' := n6 + 2;
  }

  /** The two tests at the start of a fragment. */
  lemma CheckRuns(r: Path, f: Inputs, n: nat, s: State, ch: Channel, at: Site) returns (n': nat, s': State)
    requires At(r, f, n, s) && CodeAt(s.mem, at.code, CheckCode(ch, at)) && WellFormed(ch) && s.pc == at.code
    ensures At(r, f, n', s') && n < n' <= n + 2
    ensures s'.mem == s.mem && s'.out == s.out
    ensures s'.pc == at.code + if Skips(ch, f, n) then CodeLength(ch) else 2
  {
    var code := CheckCode(ch, at);
    hide CodeAt, At, Exec;
    s' := JmpRuns(r, f, n, s, s.pc, code, 0);
    n' := n + 1;
    if s'.pc == at.code + 1 {
      s' := JmpRuns(r, f, n + 1, s', s.pc, code, 1);
      n' := n + 2;
    }
  }

  /** 4-word list: load the list pointer and the repeat count. */
  lemma ResumeRuns(r: Path, f: Inputs, n: nat, s: State, ch: Channel, at: Site) returns (s': State)
    requires At(r, f, n, s) && CodeAt(s.mem, at.code + 2, Resume4Code(ch, at)) && s.pc == at.code + 2
    requires at.data + 4 < |s.mem|
    ensures At(r, f, n + 3, s') && s'.mem == s.mem && s'.out == s.out
    ensures s'.rb == s.mem[at.data + 2] && s'.ra == s.mem[at.data + 4]
    ensures s'.pc == at.code + if s'.ra != 0 then 11 else 5
  {
    var code := Resume4Code(ch, at);
    hide CodeAt, At, Exec;
    var s1 := LoadRbRuns(r, f, n, s, s.pc, code, 0);
    var s2 := LoadRaRuns(r, f, n + 1, s1, s.pc, code, 1);
    s' := JmpRuns(r, f, n + 2, s2, s.pc, code, 2);
  }

  /** 4-word list: load a new repeat count; the pad word after _RPT gets whatever follows
      the count in the list. */
  lemma RepeatRuns(r: Path, f: Inputs, n: nat, s: State, ch: Channel, at: Site) returns (s': State)
    requires At(r, f, n, s) && CodeAt(s.mem, at.code + 5, Load4Code(ch, at)) && s.pc == at.code + 5
    requires s.rb + 4 < |s.mem| && at.data + 7 < |s.mem| && ch.fourWord
    requires Disjoint(at.data, 8, at.code + 5, 6)
    ensures At(r, f, n + 4, s') && s'.out == s.out && s'.rb == s.rb
    ensures s'.ra == s.mem[s.rb + 3] && CodeAt(s'.mem, at.code + 5, Load4Code(ch, at))
    ensures s'.mem == s.mem[at.data + 4 := s.mem[s.rb + 3]][at.data + 5 := s.mem[s.rb + 4]]
    ensures s'.pc == at.code + if s'.ra == 0 then NextAt(ch) else 9
  {
    var code := Load4Code(ch, at);
    var a := s.pc;
    hide CodeAt, At, Exec, NextAt;
    var s1 := LoadSysRuns(r, f, n, s, a, code, 0);
    var s2 := StoreSysRuns(r, f, n + 1, s1, a, code, 1);
    CodeKept(s.mem, at.data + 4, Low(s1.sys), a, code);
    CodeKept(s.mem[at.data + 4 := Low(s1.sys)], at.data + 5, High(s1.sys), a, code);
    var s3 := LoadRaRuns(r, f, n + 2, s2, a, code, 2);
    s' := JmpRuns(r, f, n + 3, s3, a, code, 3);
  }

  /** 4-word list: save the system address of a newly started entry. */
  lemma AddressRuns(r: Path, f: Inputs, n: nat, s: State, ch: Channel, at: Site) returns (s': State)
    requires At(r, f, n, s) && CodeAt(s.mem, at.code + 5, Load4Code(ch, at)) && s.pc == at.code + 9
    requires s.rb + 1 < |s.mem| && at.data + 7 < |s.mem|
    ensures At(r, f, n + 2, s') && s'.out == s.out && s'.rb == s.rb && s'.ra == s.ra && s'.pc == at.code + 11
    ensures s'.mem == s.mem[at.data + 6 := s.mem[s.rb]][at.data + 7 := s.mem[s.rb + 1]]
  {
    var code := Load4Code(ch, at);
    hide CodeAt, At, Exec, NextAt;
    var s1 := LoadSysRuns(r, f, n, s, at.code + 5, code, 4);
    s' := StoreSysRuns(r, f, n + 1, s1, at.code + 5, code, 5);
  }

  /** The commands of a stretch of output, without their origin. */
  function Strip(xs: seq<Issued>): seq<Command> { seq(|xs|, i requires 0 <= i < |xs| => xs[i].command) }

  /** Every command was issued by the fragment. */
  predicate From(xs: seq<Issued>, ch: Channel, at: Site) {
    forall x | x in xs :: at.code <= x.pc < at.code + CodeLength(ch)
  }

  /** 4-word list: start the transfer, and signal the event of the last repetition. */
  lemma Issue4Runs(r: Path, f: Inputs, n: nat, s: State, ch: Channel, at: Site)
      returns (n': nat, s': State, o: seq<Issued>)
    requires At(r, f, n, s) && CodeAt(s.mem, at.code + 11, Issue4Code(ch, at)) && s.pc == at.code + 11
    requires Constants(s.mem, at.zero) && s.ra > 0 && s.rb + 2 < |s.mem| && at.data + 7 < |s.mem| && ch.fourWord
    ensures At(r, f, n', s') && n < n' <= n + 7
    ensures s'.mem == s.mem && s'.rb == s.rb && s'.ra == s.ra - 1 && s'.pc == at.code + 18
    ensures s'.sys == Join(s.mem[at.data + 6], s.mem[at.data + 7])
    ensures s'.out == s.out + o && From(o, ch, at)
    ensures var ctl := s.mem[s.rb + 2];
            Strip(o) == Start(s'.sys, ctl) + if CBit(ctl) && s'.ra == 0 then [Event(ch)] else []
  {
    var code := Issue4Code(ch, at);
    var a := s.pc;
    hide CodeAt, At, Exec;
    var s1 := AddRaRuns(r, f, n, s, a, code, 0);
    var s2 := LoadSysRuns(r, f, n + 1, s1, a, code, 1);
    var s3 := LoadXferRuns(r, f, n + 2, s2, a, code, 2);
    o := Tag(a + 2, Start(s2.sys, s.mem[s.rb + 2]));
    s' := JmpRuns(r, f, n + 3, s3, a, code, 3);
    n' := n + 4;
    if s3.c {
      s' := JmpRuns(r, f, n + 4, s', a, code, 4);
      n' := n + 5;
      if s1.ra == 0 {
        s', o := EventRuns(r, f, n + 5, s', a, code, 5, s.out, o, ch, at);
        n' := n + 7;
      }
    }
  }

  /** SIG_EVENT followed by the load of ZERO that clears C. */
  lemma EventRuns(r: Path, f: Inputs, n: nat, s: State, a: nat, code: seq<Instr>, i: nat,
                  before: seq<Issued>, o: seq<Issued>, ch: Channel, at: Site) returns (s': State, o': seq<Issued>)
    requires At(r, f, n, s) && CodeAt(s.mem, a, code) && i + 1 < |code| && s.pc == a + i
    requires code[i] == SigEvent(0, 1, Pow2(ch.eventReg)) && code[i + 1] == LoadXferCtl(IM, at.zero)
    requires Constants(s.mem, at.zero) && at.code <= a + i < at.code + CodeLength(ch)
    requires s.out == before + o && From(o, ch, at)
    ensures At(r, f, n + 2, s') && s'.mem == s.mem && s'.rb == s.rb && s'.ra == s.ra && s'.sys == s.sys
    ensures s'.pc == s.pc + 2
    ensures s'.out == before + o' && From(o', ch, at) && Strip(o') == Strip(o) + [Event(ch)]
  {
    hide CodeAt, At, Exec;
    var s1 := SignalRuns(r, f, n, s, a, code, i);
    s' := LoadXferRuns(r, f, n + 1, s1, a, code, i + 1);
    o' := o + Tag(s.pc, [Event(ch)]);
  }

  /** 4-word list: save the repeat count and the next system address. */
  lemma SaveRuns(r: Path, f: Inputs, n: nat, s: State, ch: Channel, at: Site) returns (s': State)
    requires At(r, f, n, s) && CodeAt(s.mem, at.code + 18, Save4Code(ch, at)) && s.pc == at.code + 18
    requires at.data + 7 < |s.mem| && Disjoint(at.data, 8, at.code + 18, 4) && ch.fourWord
    ensures At(r, f, n + 4, s') && s'.out == s.out && s'.rb == s.rb
    ensures var x := (s.sys + ch.step) % LONG_LIMIT;
            s'.mem == s.mem[at.data + 4 := s.ra][at.data + 6 := Low(x)][at.data + 7 := High(x)]
    ensures s'.pc == at.code + if s.ra != 0 then CodeLength(ch) - 1 else 22
  {
    var code := Save4Code(ch, at);
    var a := s.pc;
    hide CodeAt, At, Exec, CodeLength;
    var s1 := StoreRaRuns(r, f, n, s, a, code, 0);
    CodeKept(s.mem, at.data + 4, s.ra, a, code);
    var s2 := AddSysRuns(r, f, n + 1, s1, a, code, 1);
    var s3 := StoreSysRuns(r, f, n + 2, s2, a, code, 2);
    CodeKept(s1.mem, at.data + 6, Low(s2.sys), a, code);
    CodeKept(s1.mem[at.data + 6 := Low(s2.sys)], at.data + 7, High(s2.sys), a, code);
    s' := JmpRuns(r, f, n + 3, s3, a, code, 3);
  }

  /** Consume a list entry by zeroing two of its words. */
  lemma ClearRuns(r: Path, f: Inputs, n: nat, s: State, ch: Channel, at: Site) returns (n': nat, s': State)
    requires At(r, f, n, s) && CodeAt(s.mem, at.code + ClearAt(ch), ClearCode(ch, at)) && s.pc == at.code + ClearAt(ch)
    requires Constants(s.mem, at.zero) && s.rb + 3 < |s.mem|
    ensures At(r, f, n', s') && n' == n + ClearLength(ch) && s'.out == s.out && s'.rb == s.rb
    ensures s'.pc == at.code + NextAt(ch)
    ensures var k := s.rb + if ch.fourWord then 2 else 1;
            s'.mem == if ch.dynamic then s.mem[k := 0][k + 1 := 0] else s.mem
  {
    var code := ClearCode(ch, at);
    hide CodeAt, At, Exec;
    n', s' := n, s;
    if ch.dynamic {
      var s1 := LoadSysRuns(r, f, n, s, s.pc, code, 0);
      s' := StoreSysRuns(r, f, n + 1, s1, s.pc, code, 1);
      n' := n + 2;
    }
  }

  /** 3-word list: start the transfer, and signal the event. */
  lemma Issue3Runs(r: Path, f: Inputs, n: nat, s: State, ch: Channel, at: Site)
      returns (n': nat, s': State, o: seq<Issued>)
    requires At(r, f, n, s) && CodeAt(s.mem, at.code + 2, Issue3Code(ch, at)) && s.pc == at.code + 2
    requires at.data + 2 < |s.mem| && s.mem[at.data + 2] + 2 < |s.mem|
    requires Constants(s.mem, at.zero) && !ch.fourWord
    ensures At(r, f, n', s') && n < n' <= n + 6
    ensures s'.mem == s.mem && s'.rb == s.mem[at.data + 2] && s'.pc == at.code + 8
    ensures s'.out == s.out + o && From(o, ch, at)
    ensures var x := s'.rb; var ctl := s.mem[x + 2];
            Strip(o) == Start(Join(s.mem[x], s.mem[x + 1]), ctl) + if CBit(ctl) then [Event(ch)] else []
  {
    var code := Issue3Code(ch, at);
    var a := s.pc;
    hide CodeAt, At, Exec;
    var s1 := LoadRbRuns(r, f, n, s, a, code, 0);
    var s2 := LoadSysRuns(r, f, n + 1, s1, a, code, 1);
    var s3 := LoadXferRuns(r, f, n + 2, s2, a, code, 2);
    o := Tag(a + 2, Start(s2.sys, s.mem[s1.rb + 2]));
    s' := JmpRuns(r, f, n + 3, s3, a, code, 3);
    n' := n + 4;
    if s3.c {
      s', o := EventRuns(r, f, n + 4, s', a, code, 4, s.out, o, ch, at);
      n' := n + 6;
    }
  }

  // ---- Jumps ----

  /** A step in a piece of code whose jumps go forward and no further than `end`. */
  lemma BlockForward(s: State, e: Env, a: nat, code: seq<Instr>, end: nat)
    requires CodeAt(s.mem, a, code) && a <= s.pc < a + |code| <= end && Step(s, e).Some?
    requires forall i | 0 <= i < |code| :: code[i].Jmp? ==> a + i < code[i].addr <= end
    ensures s.pc < Step(s, e).value.pc <= end
  {
    hide Decode, Effective;
    var i := s.pc - a;
    assert Decode(s.mem[a + i]) == Some(code[i]);
  }

  /** Every step inside a fragment goes forward, to its end at the furthest: whatever the
      registers, the data and the inputs are. */
  lemma ForwardOnly(s: State, e: Env, ch: Channel, at: Site)
    requires Programmed(s.mem, ch, at) && at.code <= s.pc < at.code + CodeLength(ch) && Step(s, e).Some?
    ensures s.pc < Step(s, e).value.pc <= at.code + CodeLength(ch)
  {
    hide CodeAt, Step;
    var (i, end) := (s.pc - at.code, at.code + CodeLength(ch));
    if i < 2 {
      BlockForward(s, e, at.code, CheckCode(ch, at), end);
    } else if i >= NextAt(ch) {
      BlockForward(s, e, at.code + NextAt(ch), AdvanceCode(ch, at), end);
    } else if i >= ClearAt(ch) {
      BlockForward(s, e, at.code + ClearAt(ch), ClearCode(ch, at), end);
    } else if !ch.fourWord {
      BlockForward(s, e, at.code + 2, Issue3Code(ch, at), end);
    } else if i < 5 {
      BlockForward(s, e, at.code + 2, Resume4Code(ch, at), end);
    } else if i < 11 {
      BlockForward(s, e, at.code + 5, Load4Code(ch, at), end);
    } else if i < 18 {
      BlockForward(s, e, at.code + 11, Issue4Code(ch, at), end);
    } else {
      BlockForward(s, e, at.code + 18, Save4Code(ch, at), end);
    }
  }
}
