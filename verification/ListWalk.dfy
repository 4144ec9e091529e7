/** The scatter/gather list walk a channel is meant to perform, without microcode:
    what one served visit does to the channel's variables and list, and, independently,
    the list of what every visit should issue. */
module ListWalk {
  import opened Words
  import opened Sequencer

  datatype SgEntry = SgEntry(addr: Long, ctl: Word, rpt: Word)

  /** The arguments of vdma_channel_service_3 and _4; `list` is the first `sg_size`
      entries of the caller's array. */
  datatype Channel = Channel(
    base: string, fourWord: bool, direction: char, eventReg: nat, extCond: nat,
    condition: nat, dynamic: bool, step: nat, list: seq<SgEntry>)

  /** A channel's variables: its list, the entry the list pointer is at, the repeats that
      entry still needs, and the system address of the next one. */
  datatype Walk = Walk(list: seq<SgEntry>, index: nat, rpt: Word, sysa: Long)

  predicate InList(w: Walk) { w.index < |w.list| }

  function Begin(ch: Channel): Walk { Walk(ch.list, 0, 0, 0) }

  function Event(ch: Channel): Command { Signal(0, 1, Pow2(ch.eventReg)) }

  function Advance(w: Walk): Walk
    requires InList(w)
  {
    w.(index := if w.index + 1 == |w.list| then 0 else w.index + 1)
  }

  /** A served visit of a channel with a 3-word list. Consuming an entry zeroes its
      control word and the upper half of its address. */
  function Visit3(ch: Channel, w: Walk): (Walk, seq<Command>)
    requires InList(w)
  {
    var e := w.list[w.index];
    var left := if ch.dynamic then w.list[w.index := e.(addr := Low(e.addr), ctl := 0)] else w.list;
    (Advance(w.(list := left)), Start(e.addr, e.ctl) + (if CBit(e.ctl) then [Event(ch)] else []))
  }

  /** A served visit of a channel with a 4-word list. Consuming an entry zeroes its
      control word and its repeat count. */
  function Visit4(ch: Channel, w: Walk): (Walk, seq<Command>)
    requires InList(w)
  {
    var e := w.list[w.index];
    if w.rpt == 0 && e.rpt == 0 then (Advance(w), [])
    else
      var rpt := (if w.rpt == 0 then e.rpt else w.rpt) - 1;
      var sysa := if w.rpt == 0 then e.addr else w.sysa;
      var w' := w.(rpt := rpt, sysa := (sysa + ch.step) % LONG_LIMIT);
      var left := if ch.dynamic then w.list[w.index := e.(ctl := 0, rpt := 0)] else w.list;
      (if rpt > 0 then w' else Advance(w'.(list := left)),
       Start(sysa, e.ctl) + (if CBit(e.ctl) && rpt == 0 then [Event(ch)] else []))
  }

  function Visit(ch: Channel, w: Walk): (Walk, seq<Command>)
    requires InList(w)
  {
    if ch.fourWord then Visit4(ch, w) else Visit3(ch, w)
  }

  function Visits(ch: Channel, w: Walk, v: nat): (r: (Walk, seq<Command>))
    requires InList(w)
    ensures InList(r.0) && |r.0.list| == |w.list|
  {
    if v == 0 then (w, [])
    else
      var (w1, cs) := Visits(ch, w, v - 1);
      var (w2, c) := Visit(ch, w1);
      (w2, cs + c)
  }

  // ---- What the list asks for ----

  /** The system address of repetition `k`. */
  function RepeatAddress(ch: Channel, e: SgEntry, k: nat): Long { (e.addr + k * ch.step) % LONG_LIMIT }

  /** Repetition `k` of entry `e`: address `A + k * step`, and the event after the last
      repetition of an entry with bit 31. */
  function Slot(ch: Channel, e: SgEntry, k: nat): seq<Command> {
    Start(RepeatAddress(ch, e, k), e.ctl)
    + if CBit(e.ctl) && (!ch.fourWord || k + 1 == e.rpt) then [Event(ch)] else []
  }

  /** The visits entry `e` takes: one for a 3-word entry, one per repetition for a 4-word
      entry, and one that issues nothing when the repeat count is 0. */
  function Width(ch: Channel, e: SgEntry): nat {
    if ch.fourWord && e.rpt > 0 then e.rpt else 1
  }

  function EntrySlots(ch: Channel, e: SgEntry): seq<seq<Command>> {
    if ch.fourWord && e.rpt == 0 then [[]]
    else seq(Width(ch, e), k requires 0 <= k < Width(ch, e) => Slot(ch, e, k))
  }

  /** One cycle of the list, visit by visit. */
  function Slots(ch: Channel, list: seq<SgEntry>): seq<seq<Command>> {
    if list == [] then []
    else Slots(ch, list[..|list| - 1]) + EntrySlots(ch, list[|list| - 1])
  }

  function Flatten(slots: seq<seq<Command>>): seq<Command> {
    if slots == [] then [] else Flatten(slots[..|slots| - 1]) + slots[|slots| - 1]
  }

  /** The list expanded without visits: every repetition of every entry, in order. */
  function Expansion(ch: Channel, list: seq<SgEntry>): seq<Command> {
    if list == [] then []
    else
      var e := list[|list| - 1];
      Expansion(ch, list[..|list| - 1]) + Repetitions(ch, e, if ch.fourWord then e.rpt else 1)
  }

  function Repetitions(ch: Channel, e: SgEntry, n: nat): seq<Command> {
    if n == 0 then [] else Repetitions(ch, e, n - 1) + Slot(ch, e, n - 1)
  }

  /** What `v` served visits must issue: a static list goes round, a dynamic list that the
      host does not refill is gone through once. */
  function Due(ch: Channel, v: nat): seq<Command>
    requires ch.list != []
  {
    var s := Slots(ch, ch.list);
    SlotsNonEmpty(ch, ch.list);
    if ch.dynamic then Flatten(s[..if v < |s| then v else |s|])
    else Flatten(seq(v, j requires 0 <= j < v => s[j % |s|]))
  }

  lemma SlotsNonEmpty(ch: Channel, list: seq<SgEntry>)
    requires list != []
    ensures Slots(ch, list) != []
  {
  }

  // ---- The walk issues what the list asks for ----

  /** Visit number at which entry `i` starts within a cycle. */
  function Base(ch: Channel, list: seq<SgEntry>, i: nat): nat
    requires i <= |list|
  {
    |Slots(ch, list[..i])|
  }

  lemma BaseNext(ch: Channel, list: seq<SgEntry>, i: nat)
    requires i < |list|
    ensures Base(ch, list, i + 1) == Base(ch, list, i) + Width(ch, list[i])
  {
    assert list[..i + 1][..i] == list[..i];
  }

  lemma BaseEnds(ch: Channel, list: seq<SgEntry>)
    ensures Base(ch, list, 0) == 0 && Base(ch, list, |list|) == |Slots(ch, list)|
  {
    assert list[..|list|] == list;
  }

  lemma {:induction false} SlotAt(ch: Channel, list: seq<SgEntry>, i: nat, k: nat)
    requires i < |list| && k < Width(ch, list[i])
    ensures Base(ch, list, i) + k < |Slots(ch, list)|
    ensures Slots(ch, list)[Base(ch, list, i) + k] == EntrySlots(ch, list[i])[k]
    decreases |list|
  {
    var front := list[..|list| - 1];
    if i == |list| - 1 {
    } else {
      assert front[..i] == list[..i];
      SlotAt(ch, front, i, k);
    }
  }

  lemma StepOn(ch: Channel, e: SgEntry, k: nat)
    ensures RepeatAddress(ch, e, 0) == e.addr
    ensures (RepeatAddress(ch, e, k) + ch.step) % LONG_LIMIT == RepeatAddress(ch, e, k + 1)
  {
    assert 0 * ch.step == 0 && (k + 1) * ch.step == k * ch.step + ch.step;
    AddModulo(e.addr + k * ch.step, ch.step);
  }

  lemma AddModulo(x: nat, d: nat)
    ensures (x % LONG_LIMIT + d) % LONG_LIMIT == (x + d) % LONG_LIMIT
  {
  }

  /** Position of a walk within the cycle of `list`, in visits. */
  function Position(ch: Channel, list: seq<SgEntry>, w: Walk): int
    requires InList(w) && |list| == |w.list|
  {
    Base(ch, list, w.index) + if w.rpt == 0 then 0 else list[w.index].rpt - w.rpt
  }

  /** The walk is inside the cycle of `list`: an unfinished entry has been started, and
      the saved address is the one its next repetition needs. */
  predicate OnTrack(ch: Channel, list: seq<SgEntry>, w: Walk) {
    && InList(w) && |list| == |w.list|
    && (!ch.fourWord ==> w.rpt == 0)
    && (w.rpt > 0 ==>
          && w.rpt < list[w.index].rpt
          && w.sysa == RepeatAddress(ch, list[w.index], list[w.index].rpt - w.rpt))
  }

  lemma VisitIsEntrySlot(ch: Channel, list: seq<SgEntry>, w: Walk, k: nat)
    requires OnTrack(ch, list, w) && w.list[w.index] == list[w.index]
    requires k == if w.rpt == 0 then 0 else list[w.index].rpt - w.rpt
    ensures k < Width(ch, list[w.index])
    ensures Visit(ch, w).1 == EntrySlots(ch, list[w.index])[k]
  {
  }

  /** A visit to an entry as the list gives it issues the slot the walk is at. */
  lemma VisitIssues(ch: Channel, list: seq<SgEntry>, w: Walk)
    requires OnTrack(ch, list, w) && w.list[w.index] == list[w.index]
    ensures 0 <= Position(ch, list, w) < |Slots(ch, list)|
    ensures Visit(ch, w).1 == Slots(ch, list)[Position(ch, list, w)]
  {
    hide Slots, Base, Visit, EntrySlots;
    var k := if w.rpt == 0 then 0 else list[w.index].rpt - w.rpt;
    VisitIsEntrySlot(ch, list, w, k);
    SlotAt(ch, list, w.index, k);
  }

  /** The visit after which nothing is left of the entry. */
  predicate Finishes(ch: Channel, w: Walk)
    requires InList(w)
  {
    !ch.fourWord || (if w.rpt == 0 then w.list[w.index].rpt <= 1 else w.rpt == 1)
  }

  lemma VisitTracks(ch: Channel, list: seq<SgEntry>, w: Walk)
    requires OnTrack(ch, list, w) && w.list[w.index] == list[w.index]
    ensures var w' := Visit(ch, w).0;
            && OnTrack(ch, list, w')
            && (if Finishes(ch, w) then w'.rpt == 0 && w'.index == Advance(w).index
                else w'.rpt == (if w.rpt == 0 then list[w.index].rpt else w.rpt) - 1 > 0 && w'.index == w.index)
  {
    hide RepeatAddress;
    var e := list[w.index];
    StepOn(ch, e, if w.rpt == 0 then 0 else e.rpt - w.rpt);
  }

  /** A visit moves the walk to the next slot, from the last one back to the first. */
  lemma VisitMoves(ch: Channel, list: seq<SgEntry>, w: Walk)
    requires OnTrack(ch, list, w) && w.list[w.index] == list[w.index]
    ensures var w' := Visit(ch, w).0; var p := Position(ch, list, w) + 1;
            && OnTrack(ch, list, w')
            && (p == |Slots(ch, list)| <==> Finishes(ch, w) && w.index + 1 == |list|)
            && Position(ch, list, w') == (if p == |Slots(ch, list)| then 0 else p)
  {
    hide Slots, Base, Visit;
    VisitTracks(ch, list, w);
    BaseEnds(ch, list);
    BaseNext(ch, list, w.index);
    var w' := Visit(ch, w).0;
    if !Finishes(ch, w) {
      SlotAt(ch, list, w.index, list[w.index].rpt - w'.rpt);
    } else if w.index + 1 < |list| {
      SlotAt(ch, list, w.index + 1, 0);
    }
  }

  // ---- Whole runs of one channel ----

  /** A static list goes round for ever: visit `j` issues slot `j` modulo the cycle. */
  lemma {:induction false} StaticVisits(ch: Channel, v: nat)
    requires ch.list != [] && !ch.dynamic
    ensures var (w, cs) := Visits(ch, Begin(ch), v);
            && w.list == ch.list && OnTrack(ch, ch.list, w)
            && Position(ch, ch.list, w) == v % |Slots(ch, ch.list)|
            && cs == Due(ch, v)
  {
    hide Slots, Visit, Position, OnTrack, Due;
    DueNothing(ch);
    SlotsNonEmpty(ch, ch.list);
    if v > 0 {
      StaticVisits(ch, v - 1);
      DueNext(ch, v);
      StaticMoves(ch, Visits(ch, Begin(ch), v - 1).0, v - 1);
    }
  }

  /** One visit of the endless passes over a static list. */
  lemma StaticMoves(ch: Channel, w: Walk, v: nat)
    requires !ch.dynamic && w.list == ch.list && OnTrack(ch, ch.list, w)
    requires Slots(ch, ch.list) != [] && Position(ch, ch.list, w) == v % |Slots(ch, ch.list)|
    ensures var (w', cs) := Visit(ch, w); var s := Slots(ch, ch.list);
            && w'.list == ch.list && OnTrack(ch, ch.list, w')
            && Position(ch, ch.list, w') == (v + 1) % |s|
            && cs == s[v % |s|]
  {
    StaticKeeps(ch, w);
    hide Slots, Visit, Position, OnTrack;
    VisitIssues(ch, ch.list, w);
    VisitMoves(ch, ch.list, w);
    NextModulo(v, |Slots(ch, ch.list)|);
  }

  lemma DueNothing(ch: Channel)
    requires ch.list != []
    ensures Due(ch, 0) == [] && OnTrack(ch, ch.list, Begin(ch)) && Position(ch, ch.list, Begin(ch)) == 0
    ensures Slots(ch, ch.list) != []
  {
    BaseEnds(ch, ch.list);
  }

  /** What one more visit adds. */
  lemma DueNext(ch: Channel, v: nat)
    requires ch.list != [] && v > 0
    ensures var s := Slots(ch, ch.list);
            && s != []
            && Due(ch, v) == Due(ch, v - 1) +
                             if !ch.dynamic then s[(v - 1) % |s|] else if v <= |s| then s[v - 1] else []
  {
    hide Slots;
    SlotsNonEmpty(ch, ch.list);
    if ch.dynamic { DueNextDynamic(ch, v); } else { DueNextStatic(ch, v); }
  }

  lemma {:induction false} DueGrows(ch: Channel, v: nat, w: nat)
    requires ch.list != [] && v <= w
    ensures Due(ch, v) <= Due(ch, w)
    decreases w
  {
    hide Due, Slots;
    if v < w {
      DueGrows(ch, v, w - 1);
      DueNext(ch, w);
    }
  }

  lemma DueNextStatic(ch: Channel, v: nat)
    requires ch.list != [] && v > 0 && !ch.dynamic && Slots(ch, ch.list) != []
    ensures var s := Slots(ch, ch.list); Due(ch, v) == Due(ch, v - 1) + s[(v - 1) % |s|]
  {
    hide Slots, Flatten;
    FlattenAppend(Slots(ch, ch.list), v);
  }

  lemma DueNextDynamic(ch: Channel, v: nat)
    requires ch.list != [] && v > 0 && ch.dynamic && Slots(ch, ch.list) != []
    ensures var s := Slots(ch, ch.list); Due(ch, v) == Due(ch, v - 1) + if v <= |s| then s[v - 1] else []
  {
    hide Slots;
    var s := Slots(ch, ch.list);
    if v <= |s| {
      assert s[..v][..v - 1] == s[..v - 1];
    }
  }

  lemma StaticKeeps(ch: Channel, w: Walk)
    requires !ch.dynamic && InList(w)
    ensures Visit(ch, w).0.list == w.list
  {
  }

  lemma NextModulo(a: nat, n: nat)
    requires n > 0
    ensures (a + 1) % n == if a % n + 1 == n then 0 else a % n + 1
  {
    var q, r := a / n, a % n;
    assert a + 1 == q * n + (r + 1);
    if r + 1 == n {
      assert a + 1 == (q + 1) * n;
      ModuloOf(q + 1, 0, n);
    } else {
      ModuloOf(q, r + 1, n);
    }
  }

  lemma ModuloOf(q: nat, r: nat, n: nat)
    requires r < n
    ensures (q * n + r) % n == r
  {
    var x := q * n + r;
    var d := x / n - q;
    assert d * n == r - x % n by { assert x == x / n * n + x % n; }
    AtLeastOnce(d, n);
  }

  lemma AtLeastOnce(d: int, n: nat)
    ensures (d >= 1 ==> d * n >= n) && (d <= -1 ==> d * n <= -(n as int))
  {
  }

  lemma FlattenAppend(s: seq<seq<Command>>, v: nat)
    requires v > 0 && s != []
    ensures Flatten(seq(v, j requires 0 <= j < v => s[j % |s|]))
         == Flatten(seq(v - 1, j requires 0 <= j < v - 1 => s[j % |s|])) + s[(v - 1) % |s|]
  {
    var long := seq(v, j requires 0 <= j < v => s[j % |s|]);
    assert long[..v - 1] == seq(v - 1, j requires 0 <= j < v - 1 => s[j % |s|]);
  }

  /** Nothing is left of an entry: a visit to it issues no command. */
  predicate Spent(ch: Channel, e: SgEntry) {
    if ch.fourWord then e.rpt == 0 else e.ctl == 0
  }

  /** The first `n` entries are spent, the others are as the channel's list has them. */
  predicate SpentUpTo(ch: Channel, list: seq<SgEntry>, n: nat) {
    && |list| == |ch.list|
    && forall j | 0 <= j < |list| :: if j < n then Spent(ch, list[j]) else list[j] == ch.list[j]
  }

  lemma VisitSpends(ch: Channel, w: Walk)
    requires ch.dynamic && OnTrack(ch, ch.list, w) && SpentUpTo(ch, w.list, w.index)
    ensures var w' := Visit(ch, w).0;
            SpentUpTo(ch, w'.list, if Finishes(ch, w) then w.index + 1 else w.index)
  {
  }

  lemma VisitSpent(ch: Channel, w: Walk)
    requires ch.dynamic && InList(w) && w.rpt == 0 && SpentUpTo(ch, w.list, |w.list|)
    ensures var (w', cs) := Visit(ch, w);
            cs == [] && InList(w') && w'.rpt == 0 && SpentUpTo(ch, w'.list, |w'.list|)
  {
  }

  /** One visit of the first and only pass over a dynamic list. */
  lemma DynamicMoves(ch: Channel, w: Walk)
    requires ch.dynamic && OnTrack(ch, ch.list, w) && SpentUpTo(ch, w.list, w.index)
    ensures var w' := Visit(ch, w).0; var p := Position(ch, ch.list, w) + 1;
            && 1 <= p <= |Slots(ch, ch.list)| && Visit(ch, w).1 == Slots(ch, ch.list)[p - 1]
            && if p == |Slots(ch, ch.list)| then w'.rpt == 0 && SpentUpTo(ch, w'.list, |w'.list|)
               else OnTrack(ch, ch.list, w') && SpentUpTo(ch, w'.list, w'.index) && Position(ch, ch.list, w') == p
  {
    hide Slots, Visit, Position, Finishes;
    VisitIssues(ch, ch.list, w);
    VisitMoves(ch, ch.list, w);
    VisitTracks(ch, ch.list, w);
    VisitSpends(ch, w);
  }

  /** A dynamic list that is not refilled is gone through once: every entry is consumed
      at most once, and when all are, nothing is issued any more. */
  lemma {:induction false} DynamicVisits(ch: Channel, v: nat)
    requires ch.list != [] && ch.dynamic
    ensures var (w, cs) := Visits(ch, Begin(ch), v);
            && cs == Due(ch, v)
            && (if v < |Slots(ch, ch.list)|
                then OnTrack(ch, ch.list, w) && SpentUpTo(ch, w.list, w.index) && Position(ch, ch.list, w) == v
                else w.rpt == 0 && SpentUpTo(ch, w.list, |w.list|))
  {
    hide Slots, Visit, Position, OnTrack, Due;
    DueNothing(ch);
    SlotsNonEmpty(ch, ch.list);
    if v > 0 {
      DynamicVisits(ch, v - 1);
      hide SpentUpTo;
      var w := Visits(ch, Begin(ch), v - 1).0;
      DueNext(ch, v);
      if v <= |Slots(ch, ch.list)| {
        DynamicMoves(ch, w);
      } else {
        VisitSpent(ch, w);
      }
    }
  }

  /** Either way, the visits issue exactly what is due. */
  lemma VisitsAreDue(ch: Channel, v: nat)
    requires ch.list != []
    ensures Visits(ch, Begin(ch), v).1 == Due(ch, v)
  {
    if ch.dynamic { DynamicVisits(ch, v); } else { StaticVisits(ch, v); }
  }
}
