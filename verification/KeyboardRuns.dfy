/**
 Whole runs of the keyboard: any interleaving of pressed codes, elapsed clocks and
 writes to port B.
 */
module KeyboardRuns {
  import opened Bytes
  import opened Ppi

  datatype Event =
    | Pressed(code: Byte)
    | Elapsed(cycles: nat)
    | WroteB(value: Byte)

  function Step(k: State, e: Event): State {
    match e
    case Pressed(code) => Press(k, code)
    case Elapsed(n) => Tick(k, n)
    case WroteB(v) => WriteB(k, v)
  }

  /** Codes taken from the queue by the event; the self-test code does not come from it. */
  function Presented(k: State, e: Event): seq<Byte> {
    match e
    case Pressed(code) => if Free(k) then Shown(Queued(k, code)) else []
    case Elapsed(n) => if Due(k, n) then Shown(k) else []
    case WroteB(_) => []
  }

  predicate ResetBy(k: State, e: Event) {
    e.WroteB? && Resets(k, e.value)
  }

  predicate AckedBy(k: State, e: Event) {
    e.WroteB? && Acknowledges(k, e.value)
  }

  /** The event raises IRQ1. */
  predicate Interrupts(k: State, e: Event) {
    match e
    case Pressed(_) => Free(k)
    case Elapsed(n) => Due(k, n)
    case WroteB(v) => Resets(k, v)
  }

  function Run(k: State, es: seq<Event>): State {
    if es == [] then k else Step(Run(k, es[..|es| - 1]), es[|es| - 1])
  }

  /** Codes pressed since the last keyboard reset of the run. */
  function PressedSince(k: State, es: seq<Event>): seq<Byte> {
    if es == [] then []
    else
      var before, e := es[..|es| - 1], es[|es| - 1];
      if ResetBy(Run(k, before), e) then []
      else PressedSince(k, before) + if e.Pressed? then [e.code] else []
  }

  /** Codes presented since the last keyboard reset of the run. */
  function PresentedSince(k: State, es: seq<Event>): seq<Byte> {
    if es == [] then []
    else
      var before, e := es[..|es| - 1], es[|es| - 1];
      if ResetBy(Run(k, before), e) then []
      else PresentedSince(k, before) + Presented(Run(k, before), e)
  }

  function AllPresented(k: State, es: seq<Event>): seq<Byte> {
    if es == [] then []
    else AllPresented(k, es[..|es| - 1]) + Presented(Run(k, es[..|es| - 1]), es[|es| - 1])
  }

  function CountResets(k: State, es: seq<Event>): nat {
    if es == [] then 0
    else CountResets(k, es[..|es| - 1]) + if ResetBy(Run(k, es[..|es| - 1]), es[|es| - 1]) then 1 else 0
  }

  function CountIrqs(k: State, es: seq<Event>): nat {
    if es == [] then 0
    else CountIrqs(k, es[..|es| - 1]) + if Interrupts(Run(k, es[..|es| - 1]), es[|es| - 1]) then 1 else 0
  }

  function Clocks(es: seq<Event>): nat {
    if es == [] then 0
    else Clocks(es[..|es| - 1]) + if es[|es| - 1].Elapsed? then es[|es| - 1].cycles else 0
  }

  /** What is presented comes off the front of the queue, what is pressed goes on the back. */
  lemma StepConserves(k: State, e: Event)
    requires !ResetBy(k, e)
    ensures Presented(k, e) + Step(k, e).queue == k.queue + if e.Pressed? then [e.code] else []
  {
  }

  lemma Regroup(a: seq<Byte>, b: seq<Byte>, q': seq<Byte>, q: seq<Byte>, p: seq<Byte>)
    requires b + q' == q + p
    ensures (a + b) + q' == (a + q) + p
  {
    assert (a + b) + q' == a + (b + q');
    assert (a + q) + p == a + (q + p);
  }

  /**
   The keyboard is a lossless FIFO: over any run, the codes presented since the last
   reset followed by the codes still queued are the codes pressed since then, in order.
   */
  lemma {:induction false} NothingIsLost(k: State, es: seq<Event>)
    requires k.queue == []
    ensures PresentedSince(k, es) + Run(k, es).queue == PressedSince(k, es)
  {
    if es != [] {
      var before, e := es[..|es| - 1], es[|es| - 1];
      var mid := Run(k, before);
      NothingIsLost(k, before);
      if !ResetBy(mid, e) {
        StepConserves(mid, e);
        var pressed := if e.Pressed? then [e.code] else [];
        Regroup(PresentedSince(k, before), Presented(mid, e), Step(mid, e).queue, mid.queue, pressed);
      }
    }
  }

  /** IRQ1 is raised once for every code presented and once for every reset. */
  lemma {:induction false} OneIrqPerCode(k: State, es: seq<Event>)
    ensures CountIrqs(k, es) == |AllPresented(k, es)| + CountResets(k, es)
  {
    if es != [] {
      OneIrqPerCode(k, es[..|es| - 1]);
    }
  }

  /** An event on the keyboard itself. */
  method Perform(p: PPI, e: Event)
    requires p.Valid()
    modifies p, p.irq1
    ensures p.Valid() && p.View() == Step(old(p.View()), e)
    ensures p.irq1.raised == old(p.irq1.raised) + Irq1(Interrupts(old(p.View()), e))
  {
    match e
    case Pressed(code) => p.PressScancode(code);
    case Elapsed(n) => p.TickKeyboard(n);
    case WroteB(v) => p.Out8(0x61, v);
  }

  /** Only line 1 was raised since then, this many times. */
  ghost predicate RaisedOnly1(was: seq<int>, now: seq<int>, n: nat) {
    |now| == |was| + n && now[..|was|] == was && forall k | |was| <= k < |now| :: now[k] == 1
  }

  /** Over a run the keyboard raises IRQ1 at the controller once per code presented and once per reset. */
  method PerformAll(p: PPI, es: seq<Event>)
    requires p.Valid()
    modifies p, p.irq1
    ensures p.Valid() && p.View() == Run(old(p.View()), es)
    ensures RaisedOnly1(old(p.irq1.raised), p.irq1.raised,
                        |AllPresented(old(p.View()), es)| + CountResets(old(p.View()), es))
  {
    ghost var k, was := p.View(), p.irq1.raised;
    for i := 0 to |es|
      invariant p.Valid() && p.View() == Run(k, es[..i])
      invariant RaisedOnly1(was, p.irq1.raised, CountIrqs(k, es[..i]))
    {
      assert es[..i + 1][..i] == es[..i];
      Perform(p, es[i]);
    }
    assert es[..|es|] == es;
    OneIrqPerCode(k, es);
  }

  /** A code stays on port A until it is acknowledged or the keyboard is reset. */
  lemma {:induction false} PresentedUntilAcked(k: State, es: seq<Event>)
    requires k.current != 0 && k.data == k.current
    requires forall i | 0 <= i < |es| ::
      !AckedBy(Run(k, es[..i]), es[i]) && !ResetBy(Run(k, es[..i]), es[i])
    ensures Run(k, es).current == k.current && Run(k, es).data == k.data
    ensures AllPresented(k, es) == []
  {
    if es != [] {
      var before := es[..|es| - 1];
      assert forall i | 0 <= i < |before| :: before[..i] == es[..i];
      PresentedUntilAcked(k, before);
    }
  }

  /** And that is what a handler reads on port A while bit 7 of port B is clear. */
  lemma PresentedIsRead(k: State, es: seq<Event>)
    requires k.current != 0 && k.data == k.current
    requires forall i | 0 <= i < |es| ::
      !AckedBy(Run(k, es[..i]), es[i]) && !ResetBy(Run(k, es[..i]), es[i])
    ensures !Bit(Run(k, es).portB, 0x80) ==> InPort(Run(k, es), 0x60) == k.current
  {
    PresentedUntilAcked(k, es);
    PortAShows(Run(k, es));
  }

  lemma PortAShows(k: State)
    ensures InPort(k, 0x60) == if Bit(k.portB, 0x80) then k.switches else k.data
  {
  }

  /** A code pressed on an idle keyboard is on port A at once; otherwise it waits behind the others. */
  lemma PressShows(k: State, code: Byte)
    ensures var idle := k.current == 0 && k.delay == 0 && !Bit(k.portB, 0x80);
            && (idle && k.queue == [] ==> InPort(Press(k, code), 0x60) == code && Press(k, code).queue == [])
            && (!idle ==> Press(k, code) == k.(queue := k.queue + [code]))
  {
  }

  /** With the delay at `d` or more, fewer than `d` clocks present nothing from the queue. */
  lemma {:induction false} QuietWhileDelayed(k: State, es: seq<Event>, d: nat)
    requires d <= k.delay && d <= RELOAD_DELAY
    requires Clocks(es) < d
    ensures AllPresented(k, es) == [] && d - Clocks(es) <= Run(k, es).delay
  {
    if es != [] {
      QuietWhileDelayed(k, es[..|es| - 1], d);
    }
  }

  /**
   At least 12000 clocks pass between an acknowledge and the next code from the queue,
   whatever is pressed or written to port B meanwhile.
   */
  lemma QuietAfterAck(k: State, v: Byte, es: seq<Event>)
    requires Acknowledges(k, v)
    ensures AllPresented(WriteB(k, v), es) != [] ==> 12000 <= Clocks(es)
  {
    if Clocks(es) < RELOAD_DELAY {
      QuietWhileDelayed(WriteB(k, v), es, RELOAD_DELAY);
    }
  }

  // ----- Port B -----

  /**
   A keyboard reset, the rising edge of bit 6: nothing is queued any more, and port A shows
   the self-test code 0xAA while bit 7 is clear.
   */
  lemma ResetShowsSelfTest(k: State, v: Byte)
    requires Bit(v, 0x40) && !Bit(k.portB, 0x40) && !Bit(v, 0x80)
    ensures InPort(WriteB(k, v), 0x60) == 0xAA && WriteB(k, v).queue == [] && WriteB(k, v).current == 0xAA
    ensures Interrupts(k, WroteB(v)) && InPort(WriteB(k, v), 0x61) == v
  {
  }

  /** Ports A and C take no writes, port B reads back, and the control port reads as 0xFF. */
  lemma OtherPorts(k: State, v: Byte)
    ensures OutPort(k, 0x60, v) == k && OutPort(k, 0x62, v) == k && OutPort(k, 0x63, v) == k.(control := v)
    ensures InPort(OutPort(k, 0x61, v), 0x61) == v && InPort(k, 0x63) == 0xFF
  {
  }

  /** While bit 7 of port B is set, port A shows the switches; so does port C, half by half, by bit 3. */
  lemma SwitchesReadBack(k: State)
    ensures Bit(k.portB, 0x80) ==> InPort(k, 0x60) == k.switches
    ensures !Bit(k.portB, 0x08) ==> InPort(k, 0x62) + 0x10 * InPort(k.(portB := k.portB + 0x08), 0x62) == k.switches
  {
    if !Bit(k.portB, 0x08) {
      QuotientIs(k.portB + 0x08, 0x08, k.portB / 0x08 + 1, k.portB % 0x08);
    }
  }

  // ----- Time -----

  /** The first stretch presents the code 0, which marks an idle keyboard, with more queued. */
  predicate BlankPresented(k: State, n: nat) {
    Due(k, n) && k.queue[0] == 0 && 1 < |k.queue|
  }

  /**
   Time is additive for the keyboard, except exactly when a queued code 0 is presented
   in the first stretch and lets another code through in the second.
   */
  lemma KeyboardTimeAdds(k: State, a: nat, b: nat)
    ensures Tick(Tick(k, a), b) == Tick(k, a + b) <==> !BlankPresented(k, a)
  {
  }
}
