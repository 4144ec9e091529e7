/** What is due, without visits: the cyclic or single expansion of a list, and the bytes
    one cycle of an address-contiguous list moves. */
module Cycles {
  import opened Words
  import opened Sequencer
  import opened ListWalk

  function Copies(x: seq<Command>, m: nat): seq<Command> {
    if m == 0 then [] else Copies(x, m - 1) + x
  }

  lemma {:induction false} FlattenConcat(a: seq<seq<Command>>, b: seq<seq<Command>>)
    ensures Flatten(a + b) == Flatten(a) + Flatten(b)
  {
    hide Flatten;
    FlattenLast([], []);
    if b == [] {
      assert a + b == a;
    } else {
      var n := |b| - 1;
      FlattenConcat(a, b[..n]);
      FlattenLast(a + b[..n], b[n]);
      FlattenLast(b[..n], b[n]);
      assert a + b == a + b[..n] + [b[n]] && b == b[..n] + [b[n]];
    }
  }

  lemma FlattenLast(s: seq<seq<Command>>, x: seq<Command>)
    ensures Flatten([]) == [] && Flatten(s + [x]) == Flatten(s) + x
  {
    assert (s + [x])[..|s|] == s;
  }

  lemma {:induction false} EntryExpands(ch: Channel, e: SgEntry, n: nat)
    requires n <= Width(ch, e) && (!ch.fourWord || e.rpt > 0)
    ensures Flatten(EntrySlots(ch, e)[..n]) == Repetitions(ch, e, n)
  {
    hide Slot;
    if n > 0 {
      EntryExpands(ch, e, n - 1);
      assert EntrySlots(ch, e)[..n][..n - 1] == EntrySlots(ch, e)[..n - 1];
    }
  }

  /** The slots of a cycle are the repetitions of its entries, cut into visits. */
  lemma {:induction false} SlotsExpand(ch: Channel, list: seq<SgEntry>)
    ensures Flatten(Slots(ch, list)) == Expansion(ch, list)
  {
    if list != [] {
      var n := |list| - 1;
      var e := list[n];
      SlotsExpand(ch, list[..n]);
      FlattenConcat(Slots(ch, list[..n]), EntrySlots(ch, e));
      if ch.fourWord && e.rpt == 0 {
        assert Flatten([[]]) == Flatten([]) + [];
      } else {
        EntryExpands(ch, e, Width(ch, e));
        assert EntrySlots(ch, e)[..Width(ch, e)] == EntrySlots(ch, e);
      }
    }
  }

  /** `i` visits into cycle number `m`. */
  lemma {:induction false} DueInCycle(ch: Channel, m: nat, i: nat)
    requires ch.list != [] && !ch.dynamic && i <= |Slots(ch, ch.list)|
    ensures Due(ch, m * |Slots(ch, ch.list)| + i) ==
                Due(ch, m * |Slots(ch, ch.list)|) + Flatten(Slots(ch, ch.list)[..i])
  {
    hide Due, Slots;
    var s := Slots(ch, ch.list);
    if i == 0 {
      assert s[..0] == [] && Flatten([]) == [];
    } else {
      DueInCycle(ch, m, i - 1);
      DueNext(ch, m * |s| + i);
      ModuloOf(m, i - 1, |s|);
      assert s[..i][..i - 1] == s[..i - 1];
    }
  }

  /** `m` whole cycles of a static list issue its expansion `m` times. */
  lemma {:induction false} CyclesExpand(ch: Channel, m: nat)
    requires ch.list != [] && !ch.dynamic
    ensures Due(ch, m * |Slots(ch, ch.list)|) == Copies(Expansion(ch, ch.list), m)
  {
    DueNothing(ch);
    hide Due, Slots, Expansion;
    var s := Slots(ch, ch.list);
    if m == 0 {
      assert 0 * |s| == 0;
    } else {
      CyclesExpand(ch, m - 1);
      DueInCycle(ch, m - 1, |s|);
      SlotsExpand(ch, ch.list);
      assert s[..|s|] == s && (m - 1) * |s| + |s| == m * |s|;
    }
  }

  /** A static list: whatever has been issued is a prefix of the endless repetition of the
      list's expansion. */
  lemma StaticIsCyclic(ch: Channel, v: nat)
    requires ch.list != [] && !ch.dynamic
    ensures Due(ch, v) <= Copies(Expansion(ch, ch.list), v)
  {
    hide Due, Slots, Expansion;
    SlotsNonEmpty(ch, ch.list);
    assert v <= v * |Slots(ch, ch.list)|;
    CyclesExpand(ch, v);
    DueGrows(ch, v, v * |Slots(ch, ch.list)|);
  }

  /** After the visits of `m` cycles, at least `m` expansions have been issued. */
  lemma CyclesDone(ch: Channel, m: nat, v: nat)
    requires ch.list != [] && !ch.dynamic && m * |Slots(ch, ch.list)| <= v
    ensures Copies(Expansion(ch, ch.list), m) <= Due(ch, v)
  {
    hide Due, Slots, Expansion;
    CyclesExpand(ch, m);
    DueGrows(ch, m * |Slots(ch, ch.list)|, v);
  }

  /** A dynamic list that is not refilled: whatever has been issued is a prefix of one
      expansion of the list, and after as many visits as it has slots it is all of it. */
  lemma DynamicIsOnce(ch: Channel, v: nat)
    requires ch.list != [] && ch.dynamic
    ensures Due(ch, v) <= Expansion(ch, ch.list)
    ensures v >= |Slots(ch, ch.list)| ==> Due(ch, v) == Expansion(ch, ch.list)
  {
    hide Slots, Expansion;
    var s := Slots(ch, ch.list);
    SlotsExpand(ch, ch.list);
    var n := if v < |s| then v else |s|;
    FlattenConcat(s[..n], s[n..]);
    assert s[..n] + s[n..] == s;
  }

  /** As many visits as the list has slots make one expansion due, of either kind of list. */
  lemma OneExpansion(ch: Channel)
    requires ch.list != []
    ensures Due(ch, |Slots(ch, ch.list)|) == Expansion(ch, ch.list)
  {
    hide Due, Slots, Expansion;
    if ch.dynamic {
      DynamicIsOnce(ch, |Slots(ch, ch.list)|);
    } else {
      CyclesExpand(ch, 1);
      CopiesOnce(Expansion(ch, ch.list));
      assert 1 * |Slots(ch, ch.list)| == |Slots(ch, ch.list)|;
    }
  }

  lemma CopiesOnce(x: seq<Command>)
    ensures Copies(x, 1) == x
  {
    assert Copies(x, 0) == [] && [] + x == x;
  }

  /** A 3-word list has one slot per entry: visit `j` issues entry `j`, with the event
      exactly when the entry has bit 31. */
  lemma {:induction false} Slots3(ch: Channel, list: seq<SgEntry>)
    requires !ch.fourWord
    ensures |Slots(ch, list)| == |list|
    ensures forall j | 0 <= j < |list| ::
              Slots(ch, list)[j] ==
              (if list[j].ctl == 0 then [] else [Dma(list[j].addr, list[j].ctl)])
              + if list[j].ctl >= 0x8000_0000 then [Signal(0, 1, Pow2(ch.eventReg))] else []
  {
    hide Slot, RepeatAddress;
    if list != [] {
      var e := list[|list| - 1];
      Slots3(ch, list[..|list| - 1]);
      StepOn(ch, e, 0);
      SlotMeans(ch, e, 0);
    }
  }

  /** A slot written out: the transfer (A + k * step mod 2^64, X), none if X is 0, and after the
      last repetition of an entry with bit 31 the event of the channel's register bit. */
  lemma SlotMeans(ch: Channel, e: SgEntry, k: nat)
    ensures RepeatAddress(ch, e, k) == (e.addr + k * ch.step) % 0x1_0000_0000_0000_0000
    ensures Slot(ch, e, k) ==
            (if e.ctl == 0 then [] else [Dma(RepeatAddress(ch, e, k), e.ctl)])
            + if e.ctl >= 0x8000_0000 && (!ch.fourWord || k + 1 == e.rpt) then [Signal(0, 1, Pow2(ch.eventReg))] else []
  {
    hide Pow2;
  }

  /** The transfers of the first `n` repetitions of an entry. */
  function Transfers(ch: Channel, e: SgEntry, n: nat): seq<Command> {
    seq(n, k requires 0 <= k < n => Dma((e.addr + k * ch.step) % 0x1_0000_0000_0000_0000, e.ctl))
  }

  lemma {:induction false} RepetitionsMean(ch: Channel, e: SgEntry, n: nat)
    requires e.ctl != 0 && ch.fourWord && n <= e.rpt
    ensures Repetitions(ch, e, n) ==
            Transfers(ch, e, n)
            + if e.ctl >= 0x8000_0000 && 0 < n == e.rpt then [Signal(0, 1, Pow2(ch.eventReg))] else []
  {
    hide Slot, Pow2;
    if n > 0 {
      RepetitionsMean(ch, e, n - 1);
      SlotMeans(ch, e, n - 1);
      assert Transfers(ch, e, n) == Transfers(ch, e, n - 1) + [Dma(RepeatAddress(ch, e, n - 1), e.ctl)];
    }
  }

  /** What entry (A, X, R) adds to the expansion of a 4-word list: R transfers, and the event if
      there are any and X has bit 31. A word 0 transfers nothing. */
  lemma EntryMeans(ch: Channel, list: seq<SgEntry>)
    requires ch.fourWord && list != []
    ensures var n := |list| - 1; var e := list[n];
            && (e.ctl == 0 ==> Expansion(ch, list) == Expansion(ch, list[..n]))
            && (e.ctl != 0 ==>
                  Expansion(ch, list) ==
                  Expansion(ch, list[..n])
                  + (Transfers(ch, e, e.rpt)
                     + if e.ctl >= 0x8000_0000 && e.rpt > 0 then [Signal(0, 1, Pow2(ch.eventReg))] else []))
  {
    hide Pow2, Transfers;
    var e := list[|list| - 1];
    if e.ctl == 0 {
      NoTransfers(ch, e, e.rpt);
    } else {
      RepetitionsMean(ch, e, e.rpt);
    }
  }

  lemma {:induction false} NoTransfers(ch: Channel, e: SgEntry, n: nat)
    requires e.ctl == 0
    ensures Repetitions(ch, e, n) == []
  {
    hide RepeatAddress;
    if n > 0 { NoTransfers(ch, e, n - 1); }
  }

  predicate OnlyTransfers(cs: seq<Command>) { forall i | 0 <= i < |cs| :: cs[i].Dma? }

  lemma {:induction false} NoEvents(ch: Channel, e: SgEntry, n: nat)
    requires !CBit(e.ctl) || (ch.fourWord && n < e.rpt)
    ensures OnlyTransfers(Repetitions(ch, e, n))
  {
    if n > 0 { NoEvents(ch, e, n - 1); }
  }

  lemma {:induction false} NoEventsInList(ch: Channel, list: seq<SgEntry>)
    requires forall i | 0 <= i < |list| :: !CBit(list[i].ctl)
    ensures OnlyTransfers(Expansion(ch, list))
  {
    if list != [] {
      NoEventsInList(ch, list[..|list| - 1]);
      NoEvents(ch, list[|list| - 1], if ch.fourWord then list[|list| - 1].rpt else 1);
    }
  }

  /** A 4-word list whose last entry alone has bit 31: all its transfers, and then the event. */
  lemma EventComesLast(ch: Channel, list: seq<SgEntry>)
    requires ch.fourWord && list != [] && list[|list| - 1].rpt > 0
    requires forall i | 0 <= i < |list| :: CBit(list[i].ctl) <==> i == |list| - 1
    ensures var x := Expansion(ch, list);
            x != [] && x[|x| - 1] == Event(ch) && OnlyTransfers(x[..|x| - 1])
  {
    hide RepeatAddress;
    var (n, e) := (|list| - 1, list[|list| - 1]);
    var (a, b) := (Expansion(ch, list[..n]), Repetitions(ch, e, e.rpt - 1));
    var d := Start(RepeatAddress(ch, e, e.rpt - 1), e.ctl);
    NoEventsInList(ch, list[..n]);
    NoEvents(ch, e, e.rpt - 1);
    assert Expansion(ch, list) == a + (b + (d + [Event(ch)]));
    assert a + (b + (d + [Event(ch)])) == (a + b + d) + [Event(ch)];
    assert OnlyTransfers(a + b + d);
  }

  // ---- Bytes moved ----

  /** Bytes of a transfer: the low 12 bits of its control word, 0 standing for 0x1000. */
  function Bytes(ctl: Word): nat { if ctl % 0x1000 == 0 then 0x1000 else ctl % 0x1000 }

  /** The entries follow one another in memory: each ends where the next one starts, and an
      entry that repeats does so in steps of its length. */
  predicate Contiguous(ch: Channel, list: seq<SgEntry>, start: nat, end: nat) {
    if list == [] then start == end
    else
      var e := list[|list| - 1];
      && e.ctl != 0 && (e.rpt > 1 ==> Bytes(e.ctl) == ch.step)
      && end == e.addr + e.rpt * Bytes(e.ctl) && end <= LONG_LIMIT
      && Contiguous(ch, list[..|list| - 1], start, e.addr)
  }

  /** How many transfers touch the byte at `x`. */
  function Touches(cs: seq<Command>, x: nat): nat {
    if cs == [] then 0
    else
      var c := cs[|cs| - 1];
      Touches(cs[..|cs| - 1], x) + if c.Dma? && c.addr <= x < c.addr + Bytes(c.ctl) then 1 else 0
  }

  /** Whether byte `x` lies in [start, end), as a number. */
  function Inside(x: nat, start: nat, end: nat): nat { if start <= x < end then 1 else 0 }

  lemma {:induction false} TouchesConcat(a: seq<Command>, b: seq<Command>, x: nat)
    ensures Touches(a + b, x) == Touches(a, x) + Touches(b, x)
  {
    if b == [] {
      assert a + b == a;
    } else {
      assert (a + b)[..|a + b| - 1] == a + b[..|b| - 1];
      TouchesConcat(a, b[..|b| - 1], x);
    }
  }

  lemma SlotTouches(ch: Channel, e: SgEntry, k: nat, x: nat)
    requires e.ctl != 0 && e.addr + k * ch.step < LONG_LIMIT
    ensures Touches(Slot(ch, e, k), x) == Inside(x, e.addr + k * ch.step, e.addr + k * ch.step + Bytes(e.ctl))
  {
    var d := Dma(e.addr + k * ch.step, e.ctl);
    assert [d][..0] == [];
    assert Touches([d], x) == Inside(x, d.addr, d.addr + Bytes(e.ctl));
    assert [Event(ch)][..0] == [];
    assert Touches([Event(ch)], x) == 0;
    TouchesConcat([d], [Event(ch)], x);
    assert Slot(ch, e, k) == [d] + [Event(ch)] || Slot(ch, e, k) == [d];
  }

  lemma {:induction false} EntryTouches(ch: Channel, e: SgEntry, n: nat, x: nat)
    requires e.ctl != 0 && (n > 1 ==> Bytes(e.ctl) == ch.step) && e.addr + n * Bytes(e.ctl) <= LONG_LIMIT
    ensures Touches(Repetitions(ch, e, n), x) == Inside(x, e.addr, e.addr + n * Bytes(e.ctl))
  {
    hide Slot, Bytes;
    if n > 0 {
      BytesPositive(e.ctl);
      assert (n - 1) * Bytes(e.ctl) + Bytes(e.ctl) == n * Bytes(e.ctl);
      assert (n - 1) * ch.step == (n - 1) * Bytes(e.ctl);
      EntryTouches(ch, e, n - 1, x);
      SlotTouches(ch, e, n - 1, x);
      TouchesConcat(Repetitions(ch, e, n - 1), Slot(ch, e, n - 1), x);
    }
  }

  lemma BytesPositive(ctl: Word)
    ensures 0 < Bytes(ctl) <= 0x1000
  {
  }

  /** One cycle of an address-contiguous 4-word list moves every byte of one range exactly
      once, and no other byte. */
  lemma {:induction false} ContiguousTiles(ch: Channel, list: seq<SgEntry>, start: nat, end: nat, x: nat)
    requires ch.fourWord && Contiguous(ch, list, start, end)
    ensures start <= end && Touches(Expansion(ch, list), x) == Inside(x, start, end)
  {
    hide Repetitions, Bytes;
    if list != [] {
      var e := list[|list| - 1];
      ContiguousTiles(ch, list[..|list| - 1], start, e.addr, x);
      EntryTouches(ch, e, e.rpt, x);
      TouchesConcat(Expansion(ch, list[..|list| - 1]), Repetitions(ch, e, e.rpt), x);
    }
  }
}
