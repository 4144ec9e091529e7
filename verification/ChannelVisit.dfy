/** A visit of the sequencer to a channel's fragment performs one visit of the list walk
    its data block holds, and touches nothing else. */
module ChannelVisit {
  import opened Words
  import opened SeqCode
  import opened Sequencer
  import opened ListWalk
  import opened Microcode
  import opened ChannelSteps

  /** The words of the list, and _SIZE and _BASE, are unchanged. */
  predicate ListKept(mem: seq<Word>, mem': seq<Word>, ch: Channel, at: Site) {
    && |mem'| == |mem| && at.data + DataLength(ch) < |mem|
    && mem'[at.data] == mem[at.data] && mem'[at.data + 1] == mem[at.data + 1]
    && forall a | EntryAt(ch, at, 0) <= a < at.data + DataLength(ch) :: mem'[a] == mem[a]
  }

  /** The four words of variables. */
  predicate Variables(mem: seq<Word>, ch: Channel, at: Site, w: Walk)
    requires at.data + DataLength(ch) < |mem|
  {
    && mem[at.data + 2] == EntryAt(ch, at, w.index)
    && mem[at.data + 3] == |w.list| - w.index
    && (if ch.fourWord then
          mem[at.data + 4] == w.rpt && mem[at.data + 6] == Low(w.sysa) && mem[at.data + 7] == High(w.sysa)
        else w.rpt == 0)
  }

  /** New values of the variables over the old list. */
  lemma StoredAgain(mem: seq<Word>, mem': seq<Word>, ch: Channel, at: Site, w: Walk, w': Walk)
    requires Stored(mem, ch, at, w) && ListKept(mem, mem', ch, at)
    requires InList(w') && w'.list == w.list && Variables(mem', ch, at, w')
    ensures Stored(mem', ch, at, w')
  {
    forall i | 0 <= i < |w.list| ensures EntryIn(mem', ch, EntryAt(ch, at, i), w.list[i]) {
      assert EntryIn(mem, ch, EntryAt(ch, at, i), w.list[i]);
    }
  }

  /** What consuming an entry leaves of it. */
  function Consume(ch: Channel, e: SgEntry): SgEntry {
    if !ch.dynamic then e
    else if ch.fourWord then e.(ctl := 0, rpt := 0)
    else e.(addr := Low(e.addr), ctl := 0)
  }

  /** Zeroing two words of entry `w.index` consumes it. */
  lemma StoredClear(mem: seq<Word>, ch: Channel, at: Site, w: Walk)
    requires Stored(mem, ch, at, w)
    ensures var k := EntryAt(ch, at, w.index) + if ch.fourWord then 2 else 1;
            var mem' := if ch.dynamic then mem[k := 0][k + 1 := 0] else mem;
            Stored(mem', ch, at, w.(list := w.list[w.index := Consume(ch, w.list[w.index])]))
  {
    var i := w.index;
    var k := EntryAt(ch, at, i) + if ch.fourWord then 2 else 1;
    if ch.dynamic {
      var mem' := mem[k := 0][k + 1 := 0];
      var list := w.list[i := Consume(ch, w.list[i])];
      forall j | 0 <= j < |list| ensures EntryIn(mem', ch, EntryAt(ch, at, j), list[j]) {
        assert EntryIn(mem, ch, EntryAt(ch, at, j), w.list[j]);
      }
    } else {
      assert w.list[i := w.list[i]] == w.list;
    }
  }

  lemma StoredAdvance(mem: seq<Word>, mem': seq<Word>, ch: Channel, at: Site, w: Walk, cnt: Word, index: Word)
    requires Stored(mem, ch, at, w)
    requires cnt == |w.list| - Advance(w).index && index == EntryAt(ch, at, Advance(w).index)
    requires mem' == mem[at.data + 3 := cnt][at.data + 2 := index]
    ensures Stored(mem', ch, at, Advance(w))
  {
    StoredAgain(mem, mem', ch, at, w, Advance(w));
  }

  /** Nothing changed outside the data block, in two stages. */
  lemma OnlyDataTwice(m0: seq<Word>, m1: seq<Word>, m2: seq<Word>, ch: Channel, at: Site)
    requires OnlyData(m0, m1, ch, at) && OnlyData(m1, m2, ch, at)
    ensures OnlyData(m0, m2, ch, at)
  {
  }

  /** `n` words from `lo` on are unchanged. */
  predicate SameOn(mem: seq<Word>, mem': seq<Word>, lo: nat, n: nat) {
    |mem'| == |mem| && forall a | lo <= a < lo + n && a < |mem| :: mem'[a] == mem[a]
  }

  lemma OnlyDataElsewhere(mem: seq<Word>, mem': seq<Word>, ch: Channel, at: Site, lo: nat, n: nat)
    requires OnlyData(mem, mem', ch, at) && Disjoint(at.data, DataLength(ch), lo, n)
    ensures SameOn(mem, mem', lo, n)
  {
  }

  lemma FragmentKept(mem: seq<Word>, mem': seq<Word>, ch: Channel, at: Site)
    requires Programmed(mem, ch, at) && SameOn(mem, mem', at.code, CodeLength(ch))
    ensures Programmed(mem', ch, at)
  {
    hide CodeAt, SameOn;
    PieceKept(mem, mem', ch, at, 0, CheckCode(ch, at));
    if ch.fourWord {
      PieceKept(mem, mem', ch, at, 2, Resume4Code(ch, at));
      PieceKept(mem, mem', ch, at, 5, Load4Code(ch, at));
      PieceKept(mem, mem', ch, at, 11, Issue4Code(ch, at));
      PieceKept(mem, mem', ch, at, 18, Save4Code(ch, at));
    } else {
      PieceKept(mem, mem', ch, at, 2, Issue3Code(ch, at));
    }
    PieceKept(mem, mem', ch, at, ClearAt(ch), ClearCode(ch, at));
    PieceKept(mem, mem', ch, at, NextAt(ch), AdvanceCode(ch, at));
  }

  lemma PieceKept(mem: seq<Word>, mem': seq<Word>, ch: Channel, at: Site, i: nat, code: seq<Instr>)
    requires CodeAt(mem, at.code + i, code) && i + |code| <= CodeLength(ch)
    requires SameOn(mem, mem', at.code, CodeLength(ch))
    ensures CodeAt(mem', at.code + i, code)
  {
    forall j | 0 <= j < |code| ensures Decode(mem'[at.code + i + j]) == Some(code[j]) {
      assert mem'[at.code + i + j] == mem[at.code + i + j];
    }
  }

  lemma ConstantsKept(mem: seq<Word>, mem': seq<Word>, zero: nat)
    requires Constants(mem, zero) && SameOn(mem, mem', zero, 5)
    ensures Constants(mem', zero)
  {
  }

  /** A change of the data block leaves the fragment and the constants alone. */
  lemma ProgramKept(mem: seq<Word>, mem': seq<Word>, ch: Channel, at: Site)
    requires Programmed(mem, ch, at) && Constants(mem, at.zero)
    requires Separate(ch, at) && |mem| == RAM_SIZE && OnlyData(mem, mem', ch, at)
    ensures Programmed(mem', ch, at) && Constants(mem', at.zero) && |mem'| == RAM_SIZE
  {
    hide Programmed, Constants;
    OnlyDataElsewhere(mem, mem', ch, at, at.code, CodeLength(ch));
    OnlyDataElsewhere(mem, mem', ch, at, at.zero, 5);
    FragmentKept(mem, mem', ch, at);
    ConstantsKept(mem, mem', at.zero);
  }

  /** A data block nobody wrote to holds the same walk. */
  lemma StoredKept(mem: seq<Word>, mem': seq<Word>, ch: Channel, at: Site, w: Walk)
    requires Stored(mem, ch, at, w) && SameOn(mem, mem', at.data, DataLength(ch))
    ensures Stored(mem', ch, at, w)
  {
    StoredAgain(mem, mem', ch, at, w, w);
  }

  // ---- 4-word list ----

  /** Up to _RPT_NOT_DONE: after an unfinished entry, or with a new entry started. */
  lemma StartRuns(r: Path, f: Inputs, n: nat, s: State, ch: Channel, at: Site, w: Walk) returns (n': nat, s': State)
    requires At(r, f, n, s) && Programmed(s.mem, ch, at) && Stored(s.mem, ch, at, w)
    requires Separate(ch, at) && |s.mem| == RAM_SIZE && ch.fourWord && s.pc == at.code + 2
    ensures At(r, f, n', s') && n < n' <= n + 9 && s'.out == s.out
    ensures OnlyData(s.mem, s'.mem, ch, at) && s'.rb == EntryAt(ch, at, w.index)
    ensures var e := w.list[w.index];
            if w.rpt == 0 && e.rpt == 0 then s'.pc == at.code + NextAt(ch) && Stored(s'.mem, ch, at, w)
            else
              var w' := if w.rpt == 0 then w.(rpt := e.rpt, sysa := e.addr) else w;
              s'.pc == at.code + 11 && s'.ra == w'.rpt && Stored(s'.mem, ch, at, w')
  {
    hide Resume4Code, Load4Code, Issue4Code, Save4Code, ClearCode, AdvanceCode, CheckCode, CodeAt, At;
    n' := n + 3;
    s' := ResumeRuns(r, f, n, s, ch, at);
    if w.rpt == 0 {
      var e := w.list[w.index];
      assert EntryIn(s.mem, ch, EntryAt(ch, at, w.index), e);
      var s1 := RepeatRuns(r, f, n', s', ch, at);
      StoredAgain(s.mem, s1.mem, ch, at, w, w.(rpt := e.rpt));
      n', s' := n + 7, s1;
      if e.rpt != 0 {
        s' := AddressRuns(r, f, n + 7, s1, ch, at);
        StoredAgain(s1.mem, s'.mem, ch, at, w.(rpt := e.rpt), w.(rpt := e.rpt, sysa := e.addr));
        n' := n + 9;
      }
    }
  }

  /** From _RPT_NOT_DONE to _UPDATE_B or to the consumption of the entry. */
  lemma RepeatOnceRuns(r: Path, f: Inputs, n: nat, s: State, ch: Channel, at: Site, w: Walk)
      returns (n': nat, s': State, o: seq<Issued>)
    requires At(r, f, n, s) && Programmed(s.mem, ch, at) && Constants(s.mem, at.zero) && Stored(s.mem, ch, at, w)
    requires Separate(ch, at) && |s.mem| == RAM_SIZE && ch.fourWord && s.pc == at.code + 11
    requires s.ra == w.rpt > 0 && s.rb == EntryAt(ch, at, w.index)
    ensures At(r, f, n', s') && n < n' <= n + 11 && OnlyData(s.mem, s'.mem, ch, at) && s'.rb == s.rb
    ensures s'.out == s.out + o && From(o, ch, at)
    ensures var ctl := w.list[w.index].ctl;
            Strip(o) == Start(w.sysa, ctl) + if CBit(ctl) && w.rpt == 1 then [Event(ch)] else []
    ensures Stored(s'.mem, ch, at, w.(rpt := w.rpt - 1, sysa := (w.sysa + ch.step) % LONG_LIMIT))
    ensures s'.pc == at.code + if w.rpt == 1 then 22 else CodeLength(ch) - 1
  {
    hide Resume4Code, Load4Code, Issue4Code, Save4Code, ClearCode, AdvanceCode, CheckCode, CodeAt, At;
    hide Strip, From, Start;
    assert EntryIn(s.mem, ch, EntryAt(ch, at, w.index), w.list[w.index]);
    var n1, s1, o1 := Issue4Runs(r, f, n, s, ch, at);
    o := o1;
    s' := SaveRuns(r, f, n1, s1, ch, at);
    n' := n1 + 4;
    StoredAgain(s.mem, s'.mem, ch, at, w, w.(rpt := w.rpt - 1, sysa := (w.sysa + ch.step) % LONG_LIMIT));
  }

  /** _UPDATE_B alone: the list pointer stays. */
  lemma PointerRuns(r: Path, f: Inputs, n: nat, s: State, ch: Channel, at: Site, w: Walk) returns (s': State)
    requires At(r, f, n, s) && Programmed(s.mem, ch, at) && Stored(s.mem, ch, at, w)
    requires s.pc == at.code + CodeLength(ch) - 1 && s.rb == EntryAt(ch, at, w.index)
    ensures At(r, f, n + 1, s') && s'.mem == s.mem && s'.out == s.out && s'.pc == at.code + CodeLength(ch)
  {
    var code := AdvanceCode(ch, at);
    hide CodeAt, At;
    s' := StoreRbRuns(r, f, n, s, at.code + NextAt(ch), code, 7);
  }

  /** From the end of an entry to _END. */
  lemma NextEntryRuns(r: Path, f: Inputs, n: nat, s: State, ch: Channel, at: Site, w: Walk)
      returns (n': nat, s': State)
    requires At(r, f, n, s) && Programmed(s.mem, ch, at) && Constants(s.mem, at.zero) && Stored(s.mem, ch, at, w)
    requires Separate(ch, at) && |s.mem| == RAM_SIZE
    requires s.pc == at.code + NextAt(ch) && s.rb == EntryAt(ch, at, w.index)
    ensures At(r, f, n', s') && n < n' <= n + 8 && s'.out == s.out && s'.pc == at.code + CodeLength(ch)
    ensures OnlyData(s.mem, s'.mem, ch, at) && Stored(s'.mem, ch, at, Advance(w))
  {
    hide CheckCode, Resume4Code, Load4Code, Issue4Code, Save4Code, Issue3Code, ClearCode, AdvanceCode, CodeAt, At;
    hide EntryIn;
    n', s' := AdvanceRuns(r, f, n, s, ch, at, s.mem[at.data], s.mem[at.data + 1], s.mem[at.data + 3]);
    StoredAdvance(s.mem, s'.mem, ch, at, w, s'.mem[at.data + 3], s'.mem[at.data + 2]);
  }

  /** Consumption of the entry, and on to _END. */
  lemma ConsumeRuns(r: Path, f: Inputs, n: nat, s: State, ch: Channel, at: Site, w: Walk)
      returns (n': nat, s': State)
    requires At(r, f, n, s) && Programmed(s.mem, ch, at) && Constants(s.mem, at.zero) && Stored(s.mem, ch, at, w)
    requires Separate(ch, at) && |s.mem| == RAM_SIZE
    requires s.pc == at.code + ClearAt(ch) && s.rb == EntryAt(ch, at, w.index)
    ensures At(r, f, n', s') && n < n' <= n + ClearLength(ch) + 8
    ensures s'.out == s.out && s'.pc == at.code + CodeLength(ch)
    ensures OnlyData(s.mem, s'.mem, ch, at)
    ensures Stored(s'.mem, ch, at, Advance(w.(list := w.list[w.index := Consume(ch, w.list[w.index])])))
  {
    hide CheckCode, Resume4Code, Load4Code, Issue4Code, Save4Code, Issue3Code, ClearCode, AdvanceCode, CodeAt, At;
    assert EntryIn(s.mem, ch, EntryAt(ch, at, w.index), w.list[w.index]);
    var n1, s1 := ClearRuns(r, f, n, s, ch, at);
    StoredClear(s.mem, ch, at, w);
    ProgramKept(s.mem, s1.mem, ch, at);
    n', s' := NextEntryRuns(r, f, n1, s1, ch, at, w.(list := w.list[w.index := Consume(ch, w.list[w.index])]));
    OnlyDataTwice(s.mem, s1.mem, s'.mem, ch, at);
  }

  /** A channel whose fragment, constants and data block are in memory, about to be visited. */
  predicate Ready(s: State, ch: Channel, at: Site, w: Walk) {
    && |s.mem| == RAM_SIZE && Separate(ch, at) && WellFormed(ch)
    && Programmed(s.mem, ch, at) && Constants(s.mem, at.zero) && Stored(s.mem, ch, at, w)
  }

  lemma ReadyInList(s: State, ch: Channel, at: Site, w: Walk)
    requires Ready(s, ch, at, w)
    ensures InList(w) && |w.list| == |ch.list| && at.data + 2 < |s.mem|
    ensures s.mem[at.data + 2] == EntryAt(ch, at, w.index)
    ensures EntryIn(s.mem, ch, EntryAt(ch, at, w.index), w.list[w.index])
  {
  }

  lemma ReadyIssue3(s: State, ch: Channel, at: Site)
    requires Programmed(s.mem, ch, at) && !ch.fourWord
    ensures CodeAt(s.mem, at.code + 2, Issue3Code(ch, at))
  {
  }

  /** A served visit, after the two tests: 4-word list. */
  lemma Serve4Runs(r: Path, f: Inputs, n: nat, s: State, ch: Channel, at: Site, w: Walk)
      returns (n': nat, s': State, o: seq<Issued>)
    requires At(r, f, n, s) && Ready(s, ch, at, w) && ch.fourWord && s.pc == at.code + 2
    ensures At(r, f, n', s') && n < n' <= n + CodeLength(ch) - 2 && s'.pc == at.code + CodeLength(ch)
    ensures OnlyData(s.mem, s'.mem, ch, at) && Stored(s'.mem, ch, at, Visit(ch, w).0)
    ensures s'.out == s.out + o && From(o, ch, at) && Strip(o) == Visit(ch, w).1
  {
    hide Programmed, Constants, Stored, Separate, OnlyData, At, Strip, From, Start, Visit, Consume, Advance;
    ReadyInList(s, ch, at, w);
    var e := w.list[w.index];
    Visit4Repeats(ch, w);
    o := [];
    assert Strip(o) == [] && From(o, ch, at) by { NoCommands(ch, at); }
    var n1, s1 := StartRuns(r, f, n, s, ch, at, w);
    ProgramKept(s.mem, s1.mem, ch, at);
    if w.rpt == 0 && e.rpt == 0 {
      n', s' := NextEntryRuns(r, f, n1, s1, ch, at, w);
      OnlyDataTwice(s.mem, s1.mem, s'.mem, ch, at);
    } else {
      var w1 := if w.rpt == 0 then w.(rpt := e.rpt, sysa := e.addr) else w;
      var n2, s2, o2 := RepeatOnceRuns(r, f, n1, s1, ch, at, w1);
      o := o2;
      OnlyDataTwice(s.mem, s1.mem, s2.mem, ch, at);
      ProgramKept(s1.mem, s2.mem, ch, at);
      var w2 := w1.(rpt := w1.rpt - 1, sysa := (w1.sysa + ch.step) % LONG_LIMIT);
      if w1.rpt == 1 {
        n', s' := ConsumeRuns(r, f, n2, s2, ch, at, w2);
        OnlyDataTwice(s.mem, s2.mem, s'.mem, ch, at);
      } else {
        s' := PointerRuns(r, f, n2, s2, ch, at, w2);
        n' := n2 + 1;
      }
    }
  }

  lemma NoCommands(ch: Channel, at: Site)
    ensures Strip([]) == [] && From([], ch, at)
  {
  }

  /** A served visit, after the two tests: 3-word list. */
  lemma Serve3Runs(r: Path, f: Inputs, n: nat, s: State, ch: Channel, at: Site, w: Walk)
      returns (n': nat, s': State, o: seq<Issued>)
    requires At(r, f, n, s) && Ready(s, ch, at, w) && !ch.fourWord && s.pc == at.code + 2
    ensures At(r, f, n', s') && n < n' <= n + CodeLength(ch) - 2 && s'.pc == at.code + CodeLength(ch)
    ensures OnlyData(s.mem, s'.mem, ch, at) && Stored(s'.mem, ch, at, Visit(ch, w).0)
    ensures s'.out == s.out + o && From(o, ch, at) && Strip(o) == Visit(ch, w).1
  {
    hide Issue3Code, CodeAt, At, Strip, From, Start, Visit, Consume;
    hide Programmed, Stored, Separate, Constants, EntryAt, OnlyData;
    ReadyInList(s, ch, at, w);
    ReadyIssue3(s, ch, at);
    Visit3Consumes(ch, w);
    var n1, s1, o1 := Issue3Runs(r, f, n, s, ch, at);
    o := o1;
    n', s' := ConsumeRuns(r, f, n1, s1, ch, at, w);
  }

  /** The two kinds of visit to a 4-word entry. */
  lemma Visit4Repeats(ch: Channel, w: Walk)
    requires InList(w) && ch.fourWord
    ensures var e := w.list[w.index];
            if w.rpt == 0 && e.rpt == 0 then Visit(ch, w) == (Advance(w), [])
            else
              var w1 := if w.rpt == 0 then w.(rpt := e.rpt, sysa := e.addr) else w;
              var w2 := w1.(rpt := w1.rpt - 1, sysa := (w1.sysa + ch.step) % LONG_LIMIT);
              Visit(ch, w) ==
              (if w1.rpt == 1 then Advance(w2.(list := w2.list[w2.index := Consume(ch, w2.list[w2.index])])) else w2,
               Start(w1.sysa, e.ctl) + if CBit(e.ctl) && w1.rpt == 1 then [Event(ch)] else [])
  {
    assert w.list[w.index := w.list[w.index]] == w.list;
  }

  lemma Visit3Consumes(ch: Channel, w: Walk)
    requires InList(w) && !ch.fourWord
    ensures var e := w.list[w.index];
            Visit(ch, w) == (Advance(w.(list := w.list[w.index := Consume(ch, e)])),
                             Start(e.addr, e.ctl) + if CBit(e.ctl) then [Event(ch)] else [])
  {
    assert w.list[w.index := w.list[w.index]] == w.list;
  }

  lemma ReadyCheck(s: State, ch: Channel, at: Site)
    requires Programmed(s.mem, ch, at)
    ensures CodeAt(s.mem, at.code, CheckCode(ch, at))
  {
  }

  /** One visit: nothing happens when the channel is skipped, else the list walk takes one
      visit. It ends within the length of the fragment. */
  lemma VisitRuns(r: Path, f: Inputs, n: nat, s: State, ch: Channel, at: Site, w: Walk)
      returns (n': nat, s': State, o: seq<Issued>)
    requires At(r, f, n, s) && Ready(s, ch, at, w) && s.pc == at.code
    ensures At(r, f, n', s') && n < n' <= n + CodeLength(ch) && s'.pc == at.code + CodeLength(ch)
    ensures OnlyData(s.mem, s'.mem, ch, at) && s'.out == s.out + o && From(o, ch, at)
    ensures if Skips(ch, f, n) then o == [] && Ready(s', ch, at, w)
            else Strip(o) == Visit(ch, w).1 && Ready(s', ch, at, Visit(ch, w).0)
  {
    hide CheckCode, CodeAt, Programmed, Constants, Stored, At, Strip, From, Visit, Skips, Separate;
    o := [];
    NoCommands(ch, at);
    ReadyCheck(s, ch, at);
    ReadyInList(s, ch, at, w);
    var n1, s1 := CheckRuns(r, f, n, s, ch, at);
    n', s' := n1, s1;
    if !Skips(ch, f, n) {
      if ch.fourWord {
        n', s', o := Serve4Runs(r, f, n1, s1, ch, at, w);
      } else {
        n', s', o := Serve3Runs(r, f, n1, s1, ch, at, w);
      }
      ProgramKept(s.mem, s'.mem, ch, at);
    }
  }
}
