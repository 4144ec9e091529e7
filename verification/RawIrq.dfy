/** The interrupt protocol of the raw I/O driver (rawrabbit.c): the handler disables the line
    and sets a flag, an ioctl clears the flag and enables the line again. Everything between
    taking and releasing the driver's lock is one step. */
module RawIrq {

  /** The low byte of the flags; no other bit of them is used. */
  type Flags = bv8

  const IRQDISABLE: Flags := 2
  const IRQREQUEST: Flags := 2    // the same bit, as in rawrabbit.h

  const WORD := 0x1_0000_0000_0000_0000

  /** The driver's fields, and what it has done to the interrupt line: how many handlers it
      has installed, whether one of them has been called and is about to take the lock, and
      how often the line is disabled. */
  datatype State = State(flags: Flags, irqcount: nat, present: bool, handlers: nat, called: bool, depth: nat)
  {
    predicate Marked() { HasMark(flags) }
  }

  datatype Probed = Busy | NoDevice | Found

  class Driver {
    var flags: Flags
    var irqcount: nat
    var present: bool       // pdev is set
    var handlers: nat
    var called: bool
    var depth: nat

    function View(): State
      reads this
    {
      State(flags, irqcount, present, handlers, called, depth)
    }

    /** The kernel's disable_irq_nosync. */
    method DisableLine()
      modifies this`depth
      ensures depth == old(depth) + 1
    {
      depth := depth + 1;
    }

    /** The kernel's enable_irq: enabling a line that is not disabled is only reported. */
    method EnableLine()
      modifies this`depth
      ensures depth == if old(depth) == 0 then 0 else old(depth) - 1
    {
      if depth > 0 {
        depth := depth - 1;
      }
    }

    /** rr_pciprobe: `enabled` tells whether the device matches and can be enabled, `irq` is its
        interrupt number, `granted` tells whether request_irq succeeds. */
    method PciProbe(enabled: bool, irq: nat, granted: bool) returns (r: Probed)
      modifies this
      ensures r == if old(present) then Busy else if enabled then Found else NoDevice
      ensures r != Found ==> View() == old(View())
      ensures r == Found ==> View() == ProbedWith(old(View()), irq > 0 && granted)
    {
      if present {
        return Busy;
      }
      if !enabled {
        return NoDevice;
      }
      present := true;
      if irq > 0 && granted {
        handlers := handlers + 1;
        flags := flags | IRQREQUEST;
      }
      return Found;
    }

    /** rr_interrupt. */
    method Interrupt()
      requires called
      modifies this
      ensures View() == Interrupted(old(View()))
    {
      called := false;
      irqcount := (irqcount + 1) % WORD;
      flags := flags | IRQDISABLE;
      DisableLine();
    }

    /** The check of RR_IRQWAIT; the caller then sleeps until irqcount differs from `count`. */
    method IrqWait() returns (again: bool, count: nat)
      ensures again == View().Marked() && count == irqcount
    {
      again, count := flags & IRQDISABLE != 0, irqcount;
    }

    /** Enable the line if the bit says that it is disabled. */
    method Reenable() returns (done: bool)
      modifies this
      ensures done <==> old(View()).Marked()
      ensures View() == if done then Reenabled(old(View())) else old(View())
    {
      done := flags & IRQDISABLE != 0;
      if done {
        flags := flags & !IRQDISABLE;
        EnableLine();
      }
    }

    /** RR_IRQENA. */
    method IrqEna() returns (again: bool)
      modifies this
      ensures again <==> !old(View()).Marked()
      ensures View() == if again then old(View()) else Reenabled(old(View()))
    {
      var done := Reenable();
      again := !done;
    }

    /** The kernel's free_irq: a handler that has been called is waited for. */
    method FreeIrq()
      requires handlers > 0
      modifies this
      ensures var s := if old(called) then Interrupted(old(View())) else old(View());
              View() == s.(handlers := s.handlers - 1)
    {
      if called {
        Interrupt();
      }
      handlers := handlers - 1;
    }

    /** rr_pciremove. */
    method PciRemove()
      requires View().Marked() ==> handlers > 0
      modifies this
      ensures View() == Removed(old(View()))
    {
      ghost var s := View();
      MarkCleared(flags);
      if flags & IRQREQUEST != 0 {
        FreeIrq();
        MarkCleared(flags);
        flags := flags & !IRQREQUEST;
        var done := Reenable();
      }
      present := false;
    }
  }

  function Mark(f: Flags): Flags { f | IRQDISABLE }

  function Clear(f: Flags): Flags { f & !IRQDISABLE }

  predicate HasMark(f: Flags) { f & IRQDISABLE != 0 }

  lemma MarkCleared(f: Flags)
    ensures !HasMark(Clear(f)) && HasMark(Mark(f))
    ensures !HasMark(f) ==> Clear(f) == f
    ensures Clear(Mark(f)) == Clear(f) == Clear(Clear(f))
  {
  }

  function ProbedWith(s: State, installed: bool): State {
    if installed then s.(present := true, handlers := s.handlers + 1, flags := Mark(s.flags))
    else s.(present := true)
  }

  function Interrupted(s: State): State {
    s.(called := false, irqcount := (s.irqcount + 1) % WORD, flags := Mark(s.flags), depth := s.depth + 1)
  }

  function Reenabled(s: State): State {
    s.(flags := Clear(s.flags), depth := if s.depth == 0 then 0 else s.depth - 1)
  }

  /** Removal as it turns out. If the bit is set, a handler that has been called gets to run,
      then the handler goes; the line stays as it then is, since clearing IRQREQUEST has
      cleared IRQDISABLE too. If the bit is clear, the handler stays, called or not. */
  function Removed(s: State): State {
    if s.Marked() && s.handlers > 0 then
      var t := if s.called then Interrupted(s) else s;
      t.(flags := Clear(t.flags), handlers := t.handlers - 1, present := false)
    else s.(present := false)
  }

  // ---- Runs ----

  /** What can happen between probe and removal, in any order: the line calls the handler,
      the handler gets the lock, a process waits, a process re-enables. */
  datatype Event = Call | Handle | Wait | Enable

  predicate Possible(s: State, e: Event) {
    match e
    case Call => s.handlers > 0 && s.depth == 0 && !s.called
    case Handle => s.called
    case Wait => true
    case Enable => s.Marked()    // otherwise the ioctl answers EAGAIN and changes nothing
  }

  function After(s: State, e: Event): State {
    if !Possible(s, e) then s
    else
      match e
      case Call => s.(called := true)
      case Handle => Interrupted(s)
      case Wait => s
      case Enable => Reenabled(s)
  }

  function Run(s: State, es: seq<Event>): State {
    if es == [] then s else After(Run(s, es[..|es| - 1]), es[|es| - 1])
  }

  /** How often event `e` happened. */
  function Times(s: State, es: seq<Event>, e: Event): nat {
    if es == [] then 0
    else
      var n := |es| - 1;
      Times(s, es[..n], e) + if es[n] == e && Possible(Run(s, es[..n]), e) then 1 else 0
  }

  /** Re-enabling would enable a line that is not disabled. */
  predicate Unbalanced(s: State) { s.Marked() && s.depth == 0 }

  /** A driver that has just found its device and installed its handler. */
  predicate Fresh(s: State) {
    s.Marked() && s.present && s.handlers == 1 && !s.called && s.depth == 0 && s.irqcount < WORD
  }

  /** Nothing has been handled or re-enabled yet. */
  predicate Untouched(s: State, es: seq<Event>) {
    Times(s, es, Handle) == 0 && Times(s, es, Enable) == 0
  }

  /** The first event that counts was a re-enabling. */
  predicate EnabledFirst(s: State, es: seq<Event>) {
    exists k | 0 <= k < |es| :: Untouched(s, es[..k]) && es[k] == Enable
  }

  /** A probe that is granted the interrupt of a line no handler of the driver is on. */
  lemma ProbeIsFresh(s: State)
    requires !s.present && s.handlers == 0 && !s.called && s.depth == 0 && s.irqcount < WORD
    ensures Fresh(ProbedWith(s, true))
  {
    MarkCleared(s.flags);
  }

  /** A device found without an interrupt stays as it is, whatever processes ask for. */
  lemma {:induction false} NoHandler(s: State, es: seq<Event>)
    requires s.handlers == 0 && !s.called && !s.Marked()
    ensures Run(s, es) == s
  {
    if es != [] { NoHandler(s, es[..|es| - 1]); }
  }

  /** State `t`, reached from `s` with `h` interrupts handled and `e` successful re-enablings;
      `first` tells whether a re-enabling came first. */
  predicate Kept(s: State, t: State, h: nat, e: nat, first: bool) {
    && t.present && t.handlers == 1 && (t.called ==> t.depth == 0)
    && t.irqcount == (s.irqcount + h) % WORD
    && Clear(t.flags) == Clear(s.flags)
    && (if h == 0 && e == 0 then t.Marked() && t.depth == 0 && !first
        else t.depth == (if t.Marked() then 1 else 0) && t.depth + e == h + if first then 1 else 0)
  }

  /** What every run keeps. */
  predicate Tracked(s: State, es: seq<Event>) {
    Kept(s, Run(s, es), Times(s, es, Handle), Times(s, es, Enable), EnabledFirst(s, es))
  }

  /** The order of the events is decided by the first one that counts. */
  lemma FirstEvent(s: State, es: seq<Event>)
    requires es != []
    ensures var n := |es| - 1;
            EnabledFirst(s, es) <==> EnabledFirst(s, es[..n]) || (Untouched(s, es[..n]) && es[n] == Enable)
  {
    var n := |es| - 1;
    if EnabledFirst(s, es) {
      var k :| 0 <= k < |es| && Untouched(s, es[..k]) && es[k] == Enable;
      if k < n { assert es[..n][..k] == es[..k] && es[..n][k] == Enable; }
    }
    if EnabledFirst(s, es[..n]) {
      var k :| 0 <= k < n && Untouched(s, es[..n][..k]) && es[..n][k] == Enable;
      assert es[..n][..k] == es[..k] && es[k] == Enable;
    }
  }

  /** Once an interrupt has been handled or a re-enabling has succeeded, the bit is set exactly
      when the line is disabled, the line is disabled at most once, and the interrupts less the
      re-enablings tell which; a first re-enabling before any interrupt does not count. */
  lemma {:induction false} BitTracksLine(s: State, es: seq<Event>)
    requires Fresh(s)
    ensures Tracked(s, es)
  {
    hide EnabledFirst;
    if es == [] {
      NoEvent(s);
    } else {
      var n := |es| - 1;
      BitTracksLine(s, es[..n]);
      FirstEvent(s, es);
      KeptNext(s, Run(s, es[..n]), Times(s, es[..n], Handle), Times(s, es[..n], Enable), EnabledFirst(s, es[..n]),
               es[n]);
    }
  }

  lemma NoEvent(s: State)
    ensures !EnabledFirst(s, [])
  {
  }

  lemma KeptNext(s: State, t: State, h: nat, e: nat, first: bool, event: Event)
    requires Kept(s, t, h, e, first)
    ensures var p := Possible(t, event);
            Kept(s, After(t, event),
                 if p && event == Handle then h + 1 else h,
                 if p && event == Enable then e + 1 else e,
                 first || (h == 0 && e == 0 && event == Enable))
  {
    hide Mark, Clear, HasMark;
    MarkCleared(t.flags);
    CountOn(s.irqcount + h);
  }

  lemma CountOn(n: nat)
    ensures (n % WORD + 1) % WORD == (n + 1) % WORD
  {
  }

  /** A re-enabling that succeeds is unbalanced exactly when nothing was handled or re-enabled
      since the probe: the probe leaves the shared bit set on an enabled line. */
  lemma {:induction false} UnbalancedExactly(s: State, es: seq<Event>)
    requires Fresh(s)
    ensures Unbalanced(Run(s, es)) <==> Untouched(s, es)
  {
    hide EnabledFirst;
    BitTracksLine(s, es);
  }

  /** The first re-enabling after a probe is such a case. */
  lemma EnableAfterProbe(s: State)
    requires Fresh(s)
    ensures Possible(s, Enable) && Unbalanced(s) && !Unbalanced(Run(s, [Enable]))
    ensures EnabledFirst(s, [Enable])
  {
    MarkCleared(s.flags);
    assert [Enable][..0] == [] && Run(s, []) == s;
  }

  /** Removal frees the handler and leaves the line enabled exactly when nothing was handled or
      re-enabled since the probe, and no handler has been called either. If one has been called,
      it disables the line on the way, for good. If something was handled or re-enabled, removal
      either frees the handler and leaves the line disabled, or keeps the handler on an enabled
      line; a handler kept while it waits for the lock then marks and disables without a
      device. */
  lemma {:induction false} RemovalIsClean(s: State, es: seq<Event>)
    requires Fresh(s)
    ensures var (t, r) := (Run(s, es), Removed(Run(s, es)));
            && !r.Marked() && !r.present
            && (r.handlers == 0 && r.depth == 0 <==> Untouched(s, es) && !t.called)
            && (Untouched(s, es) && t.called ==> r.handlers == 0 && r.depth == 1 && !r.called)
            && (!Untouched(s, es) && t.depth == 1 ==> r.handlers == 0 && r.depth == 1)
            && (!Untouched(s, es) && t.depth == 0 ==> r.handlers == 1 && r.depth == 0 && r.called == t.called)
            && (r.called ==> After(r, Handle).Marked() && After(r, Handle).depth == 1 && !After(r, Handle).present)
  {
    hide EnabledFirst, Mark, Clear, HasMark;
    BitTracksLine(s, es);
    var t := Run(s, es);
    MarkCleared(t.flags);
    MarkCleared(Mark(t.flags));
  }

  /** The input with a waiting handler: the line is left disabled. */
  lemma RemovalWhileCalled(s: State)
    requires Fresh(s)
    ensures Untouched(s, [Call]) && Run(s, [Call]).called && Removed(Run(s, [Call])).depth == 1
  {
    hide Mark, Clear, HasMark;
    assert [Call][..0] == [] && Run(s, []) == s && Times(s, [], Handle) == 0 && Times(s, [], Enable) == 0;
    assert Run(s, [Call]) == s.(called := true);
  }

  /** RR_IRQWAIT answers EAGAIN exactly when the line is disabled, once tracking has begun; and
      the process that sleeps instead is released exactly by interrupts handled since, unless
      their number is a multiple of 2^64. */
  lemma {:induction false} WaitSeesInterrupts(s: State, es: seq<Event>, more: seq<Event>)
    requires Fresh(s)
    ensures !Untouched(s, es) ==> (Run(s, es).Marked() <==> Run(s, es).depth > 0)
    ensures var h := Times(s, es + more, Handle) - Times(s, es, Handle);
            && h >= 0
            && (Run(s, es + more).irqcount != Run(s, es).irqcount <==> h % 0x1_0000_0000_0000_0000 != 0)
  {
    hide EnabledFirst;
    BitTracksLine(s, es);
    BitTracksLine(s, es + more);
    TimesGrow(s, es, more, Handle);
    Wraps(s.irqcount + Times(s, es, Handle), s.irqcount + Times(s, es + more, Handle));
  }

  lemma Wraps(a: nat, b: nat)
    ensures a % WORD != b % WORD <==> (b - a) % WORD != 0
  {
  }

  lemma {:induction false} TimesGrow(s: State, es: seq<Event>, more: seq<Event>, e: Event)
    ensures Times(s, es, e) <= Times(s, es + more, e)
    decreases |more|
  {
    if more == [] {
      assert es + more == es;
    } else {
      var m := |more| - 1;
      TimesGrow(s, es, more[..m], e);
      assert (es + more)[..|es + more| - 1] == es + more[..m];
    }
  }

  /** The bit is bit 1, for both names, and no other bit is touched. */
  lemma SharedBit(f: Flags)
    ensures IRQDISABLE == IRQREQUEST == 2
    ensures HasMark(f) <==> f & 2 != 0
    ensures Mark(f) == f | 2 && Clear(f) == f & 0xFD
    ensures Mark(f) & 0xFD == f & 0xFD && Clear(f) & 0xFD == f & 0xFD
  {
  }
}
