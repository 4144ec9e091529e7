/** Further properties of every run of the main loop. */
module LoopProperties {
  import opened Words
  import opened Sequencer
  import opened ListWalk
  import opened Microcode
  import opened MainLoop
  import opened Cycles

  /** The visit that follows a visit. */
  lemma VisitAfter(p: Program, init: State, f: Inputs, n: nat, k: nat) returns (n': nat)
    requires ValidProgram(p) && Boot(p, init) && k < |p.channels| && VisitAt(p, init, f, n, k)
    ensures NextChannel(p, k) < |p.channels| && VisitAt(p, init, f, n', NextChannel(p, k))
    ensures n < n' <= n + TurnLength(p, k) && Quiet(p, init, f, n, n')
    ensures Skips(p.channels[k], f, n) ==> Run(init, f, n').value.out == Run(init, f, n).value.out
  {
    hide Run, ValidProgram, Boot, Quiet, Skips, TurnLength, Accounts, VisitAt;
    VisitSettled(p, init, f, n, k);
    n' := NextVisit(p, init, f, n, k);
  }

  /** The visits from a visit to channel 0 on, up to channel `j`. */
  lemma {:induction false} PassSoFar(p: Program, init: State, f: Inputs, n: nat, j: nat) returns (times: seq<nat>)
    requires ValidProgram(p) && Boot(p, init) && VisitAt(p, init, f, n, 0) && j < |p.channels|
    ensures |times| == j + 1 && times[0] == n
    ensures forall i | 0 <= i <= j :: VisitAt(p, init, f, times[i], i)
    ensures forall i | 0 <= i < j :: times[i] < times[i + 1] && Quiet(p, init, f, times[i], times[i + 1])
    ensures times[j] - n <= CodeStart(p.channels, j) - MAIN
  {
    hide Run, ValidProgram, Boot, Quiet, Skips, VisitAt, CodeLength;
    if j == 0 {
      times := [n];
    } else {
      var front := PassSoFar(p, init, f, n, j - 1);
      var t := VisitAfter(p, init, f, front[j - 1], j - 1);
      times := front + [t];
    }
  }

  /** One pass of MAIN visits every channel once and in order, makes no other visit, and ends
      within a fixed number of steps: the length of the code from MAIN on. */
  lemma PassBound(p: Program, init: State, f: Inputs, n: nat) returns (times: seq<nat>)
    requires ValidProgram(p) && Boot(p, init) && VisitAt(p, init, f, n, 0)
    ensures |times| == |p.channels| + 1 && times[0] == n
    ensures forall j | 0 <= j < |p.channels| :: VisitAt(p, init, f, times[j], j)
    ensures forall j | 0 <= j < |p.channels| :: times[j] < times[j + 1] && Quiet(p, init, f, times[j], times[j + 1])
    ensures VisitAt(p, init, f, times[|p.channels|], 0)
    ensures times[|p.channels|] - n <= CodeEnd(p) - MAIN
  {
    hide Run, Boot, Quiet, Skips, VisitAt, CodeLength, CodeStart, Fits;
    var last := |p.channels| - 1;
    var front := PassSoFar(p, init, f, n, last);
    var t := VisitAfter(p, init, f, front[last], last);
    LastTurn(p);
    times := front + [t];
  }

  lemma LastTurn(p: Program)
    requires p.channels != []
    ensures CodeStart(p.channels, |p.channels| - 1) + TurnLength(p, |p.channels| - 1) == CodeEnd(p)
  {
  }

  /** In one pass a channel is served once, or not at all if its visit is skipped. */
  lemma {:induction false} PassServes(p: Program, init: State, f: Inputs, times: seq<nat>, m: nat, k: nat)
    requires k < |p.channels| && m <= |p.channels| && |times| == |p.channels| + 1
    requires forall j | 0 <= j < |p.channels| ::
               VisitAt(p, init, f, times[j], j) && times[j] < times[j + 1] && Quiet(p, init, f, times[j], times[j + 1])
    ensures Served(p, init, f, times[m], k)
         == Served(p, init, f, times[0], k) + if k < m && !Skips(p.channels[k], f, times[k]) then 1 else 0
  {
    hide VisitAt, Served, Skips, Quiet;
    if m > 0 {
      PassServes(p, init, f, times, m - 1, k);
      ServedNext(p, init, f, times[m - 1], times[m - 1 + 1], m - 1, k);
    }
  }

  /** From time `n` on, no visit to channel `k` is skipped. */
  ghost predicate NeverSkipped(p: Program, init: State, f: Inputs, n: nat, k: nat)
    requires k < |p.channels|
  {
    forall m | m >= n && VisitAt(p, init, f, m, k) :: !Skips(p.channels[k], f, m)
  }

  /** Progress: from a visit to channel 0 on, a channel that is not skipped is served `m` times
      within the length of `m` passes. */
  lemma {:induction false} Progress(p: Program, init: State, f: Inputs, n: nat, k: nat, m: nat) returns (n': nat)
    requires ValidProgram(p) && Boot(p, init) && VisitAt(p, init, f, n, 0)
    requires k < |p.channels| && NeverSkipped(p, init, f, n, k)
    ensures n <= n' <= n + m * (CodeEnd(p) - MAIN) && VisitAt(p, init, f, n', 0)
    ensures Served(p, init, f, n', k) == Served(p, init, f, n, k) + m
  {
    hide Boot, ValidProgram, Quiet, Skips, VisitAt, Served, CodeEnd;
    if m == 0 {
      n' := n;
    } else {
      var n1 := Progress(p, init, f, n, k, m - 1);
      var times := PassBound(p, init, f, n1);
      Ascend(times, k);
      PassServes(p, init, f, times, |p.channels|, k);
      n' := times[|p.channels|];
      Ascend(times, |p.channels|);
      OnePass(m, CodeEnd(p) - MAIN);
    }
  }

  lemma {:induction false} Ascend(times: seq<nat>, k: nat)
    requires k < |times| && forall j | 0 <= j < |times| - 1 :: times[j] < times[j + 1]
    ensures times[0] <= times[k]
  {
    if k > 0 { Ascend(times, k - 1); }
  }

  lemma OnePass(m: nat, d: int)
    requires m > 0
    ensures (m - 1) * d + d == m * d
  {
  }

  /** A channel that is not skipped has issued the whole expansion of its list, and nothing
      else, at a time within as many passes as the list has slots. */
  lemma ExpansionIssued(p: Program, init: State, f: Inputs, k: nat) returns (n: nat)
    requires ValidProgram(p) && Boot(p, init) && k < |p.channels| && NeverSkipped(p, init, f, 1, k)
    ensures n <= 1 + |Slots(p.channels[k], p.channels[k].list)| * (CodeEnd(p) - MAIN) && Run(init, f, n).Some?
    ensures Issues(p, Run(init, f, n).value.out, k) == Expansion(p.channels[k], p.channels[k].list)
  {
    hide Boot, Quiet, Skips, Served, CodeEnd, Slots, Due, Expansion, Issues, Fits, NeverSkipped;
    FirstVisit(p, init, f, k);
    var ch := p.channels[k];
    assert WellFormed(ch);
    n := Progress(p, init, f, 1, k, |Slots(ch, ch.list)|);
    IssuesDue(p, init, f, n, 0, k);
    OneExpansion(ch);
  }

  lemma FirstVisit(p: Program, init: State, f: Inputs, k: nat)
    requires ValidProgram(p) && Boot(p, init) && k < |p.channels|
    ensures VisitAt(p, init, f, 1, 0) && Served(p, init, f, 1, k) == 0
  {
    hide ValidProgram, Accounts, Frame, Programmed, Stored, Skips;
    BootRuns(p, init, f);
    assert !VisitAt(p, init, f, 0, k);
    assert Served(p, init, f, 0, k) == 0;
  }

  /** A visit that finds servicing not required or its queue full issues nothing: the output
      of the sequencer stays as it is until the next visit starts. */
  lemma SkipIsSilent(p: Program, init: State, f: Inputs, n: nat, k: nat) returns (n': nat)
    requires ValidProgram(p) && Boot(p, init) && k < |p.channels| && VisitAt(p, init, f, n, k)
    requires Skips(p.channels[k], f, n)
    ensures n < n' && VisitAt(p, init, f, n', NextChannel(p, k)) && Quiet(p, init, f, n, n')
    ensures forall m | n <= m <= n' :: Run(init, f, m).Some? && Run(init, f, m).value.out == Run(init, f, n).value.out
  {
    hide Run, ValidProgram, Boot, Quiet, Skips, TurnLength, CodeStart;
    n' := VisitAfter(p, init, f, n, k);
    forall m | n <= m <= n'
      ensures Run(init, f, m).Some? && Run(init, f, m).value.out == Run(init, f, n).value.out
    {
      OutputGrows(init, f, m, n');
      OutputGrows(init, f, n, m);
    }
  }

  // ---- Between two visits ----

  /** Nothing is left of the entry at `a`: its repeat count, or in a 3-word list its control
      word, is zero. */
  predicate SpentIn(mem: seq<Word>, ch: Channel, a: nat) {
    a + 3 < |mem| && mem[a + if ch.fourWord then 3 else 2] == 0
  }

  /** The variables of a channel between two visits: the counter and the pointer name the
      same entry, and an unfinished entry is intact, has repeats left and its next system
      address is the right one. A static list is as it was; an entry of a dynamic list is as
      it was or spent. */
  predicate Resting(mem: seq<Word>, ch: Channel, at: Site) {
    && at.data + DataLength(ch) < |mem|
    && var (size, cnt) := (mem[at.data], mem[at.data + 3]);
    && size == |ch.list| && 1 <= cnt <= size
    && mem[at.data + 2] == EntryAt(ch, at, size - cnt)
    && (ch.fourWord ==>
          var (e, rpt) := (ch.list[size - cnt], mem[at.data + 4]);
          rpt > 0 ==>
            && rpt < e.rpt
            && Join(mem[at.data + 6], mem[at.data + 7]) == (e.addr + (e.rpt - rpt) * ch.step) % LONG_LIMIT
            && EntryIn(mem, ch, EntryAt(ch, at, size - cnt), e))
    && forall j | 0 <= j < size ::
         EntryIn(mem, ch, EntryAt(ch, at, j), ch.list[j]) || (ch.dynamic && SpentIn(mem, ch, EntryAt(ch, at, j)))
  }

  /** What a walk that can occur is like, for both kinds of list. */
  predicate Resumable(ch: Channel, w: Walk) {
    && InList(w) && |w.list| == |ch.list|
    && (w.rpt > 0 ==> OnTrack(ch, ch.list, w) && w.list[w.index] == ch.list[w.index])
    && forall j | 0 <= j < |w.list| :: w.list[j] == ch.list[j] || (ch.dynamic && Spent(ch, w.list[j]))
  }

  lemma WalkResumable(ch: Channel, v: nat)
    requires ch.list != []
    ensures Resumable(ch, Visits(ch, Begin(ch), v).0)
  {
    hide Visit, Due, Slots, Position, OnTrack, Spent;
    if ch.dynamic {
      DynamicVisits(ch, v);
    } else {
      StaticVisits(ch, v);
    }
  }

  lemma ResumableRests(mem: seq<Word>, ch: Channel, at: Site, w: Walk)
    requires Stored(mem, ch, at, w) && Resumable(ch, w)
    ensures Resting(mem, ch, at)
  {
    forall j | 0 <= j < |ch.list|
      ensures EntryIn(mem, ch, EntryAt(ch, at, j), ch.list[j]) || (ch.dynamic && SpentIn(mem, ch, EntryAt(ch, at, j)))
    {
      assert EntryIn(mem, ch, EntryAt(ch, at, j), w.list[j]);
    }
  }

  /** Whenever a visit starts, every channel is at rest. */
  lemma AtRest(p: Program, init: State, f: Inputs, n: nat, j: nat, k: nat)
    requires ValidProgram(p) && Boot(p, init) && j < |p.channels| && VisitAt(p, init, f, n, j) && k < |p.channels|
    ensures Resting(Run(init, f, n).value.mem, p.channels[k], SiteOf(p, k))
  {
    hide Run, Boot, ValidProgram, Frame, Programmed, Issues, Stored, Resting, Resumable, Served;
    VisitSettled(p, init, f, n, j);
    var (ch, s) := (p.channels[k], Run(init, f, n).value);
    var v := ServedEach(p, init, f, n)[k];
    assert Account(p, s.mem, s.out, k, v);
    WalkResumable(ch, v);
    ResumableRests(s.mem, ch, SiteOf(p, k), Visits(ch, Begin(ch), v).0);
  }
}
