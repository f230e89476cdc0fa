/** From typed text to what the interrupt handler reads: encoder, queue and decoder. */
module Typing {
  import opened Bytes
  import opened Ppi
  import opened KeyboardRuns
  import opened Scancodes

  function PressEvents(codes: seq<Byte>): seq<Event> {
    seq(|codes|, i requires 0 <= i < |codes| => Pressed(codes[i]))
  }

  lemma PressEventsSnoc(codes: seq<Byte>)
    requires codes != []
    ensures var es := PressEvents(codes);
            es[..|es| - 1] == PressEvents(codes[..|codes| - 1]) && es[|es| - 1] == Pressed(codes[|codes| - 1])
  {
  }

  /** A burst of codes is a run of presses. */
  lemma {:induction false} BurstIsRun(k: State, codes: seq<Byte>)
    ensures Run(k, PressEvents(codes)) == PressAll(k, codes)
    ensures PressedSince(k, PressEvents(codes)) == codes
  {
    if codes != [] {
      PressEventsSnoc(codes);
      BurstIsRun(k, codes[..|codes| - 1]);
      assert codes == codes[..|codes| - 1] + [codes[|codes| - 1]];
    }
  }

  /** Nothing is pressed and the keyboard is not reset. */
  predicate Handled(k: State, es: seq<Event>) {
    es != [] ==>
      && Handled(k, es[..|es| - 1])
      && !es[|es| - 1].Pressed? && !ResetBy(Run(k, es[..|es| - 1]), es[|es| - 1])
  }

  lemma {:induction false} RunAppend(k: State, xs: seq<Event>, ys: seq<Event>)
    ensures Run(k, xs + ys) == Run(Run(k, xs), ys)
    decreases |ys|
  {
    if ys == [] {
      assert xs + ys == xs;
    } else {
      RunAppend(k, xs, ys[..|ys| - 1]);
      assert (xs + ys)[..|xs + ys| - 1] == xs + ys[..|ys| - 1];
    }
  }

  /** While the machine only handles codes, what was pressed stays what was pressed. */
  lemma {:induction false} PressedStays(k: State, xs: seq<Event>, ys: seq<Event>)
    requires Handled(Run(k, xs), ys)
    ensures PressedSince(k, xs + ys) == PressedSince(k, xs)
    decreases |ys|
  {
    if ys == [] {
      assert xs + ys == xs;
    } else {
      var before := ys[..|ys| - 1];
      PressedStays(k, xs, before);
      RunAppend(k, xs, before);
      assert (xs + ys)[..|xs + ys| - 1] == xs + before;
    }
  }

  lemma QueueAndPresented(k: State, codes: seq<Byte>, es: seq<Event>)
    requires k.queue == [] && Handled(PressAll(k, codes), es)
    ensures var all := PressEvents(codes) + es;
            PresentedSince(k, all) + Run(k, all).queue == codes
  {
    BurstIsRun(k, codes);
    PressedStays(k, PressEvents(codes), es);
    NothingIsLost(k, PressEvents(codes) + es);
  }

  lemma DrainedText(m: map<char, CharKey>, s: string, presented: seq<Byte>, queue: seq<Byte>)
    requires IsKeymap(m) && presented + queue == TextCodes(m, s) && queue == []
    ensures HearAll(LISTENING, presented).text == Normalised(s)
  {
    TextIsRecovered(m, s);
    assert presented + queue == presented;
  }

  /**
   Text typed on a keyboard with an empty queue arrives: however time passes and codes
   are acknowledged afterwards, the codes presented so far followed by the queue are the
   text's codes, and once the queue is empty the handler has the normalised text.
   */
  lemma TypedTextArrives(k: State, m: map<char, CharKey>, s: string, es: seq<Event>)
    requires k.queue == [] && IsKeymap(m)
    requires Handled(PressAll(k, TextCodes(m, s)), es)
    ensures var all := PressEvents(TextCodes(m, s)) + es;
            && PresentedSince(k, all) + Run(k, all).queue == TextCodes(m, s)
            && (Run(k, all).queue == [] ==> HearAll(LISTENING, PresentedSince(k, all)).text == Normalised(s))
  {
    var codes := TextCodes(m, s);
    var all := PressEvents(codes) + es;
    QueueAndPresented(k, codes, es);
    if Run(k, all).queue == [] {
      DrainedText(m, s, PresentedSince(k, all), Run(k, all).queue);
    }
  }

  // ----- Arrival -----

  /** The handler acknowledges each code by pulsing bit 7 of port B, and some clocks pass. */
  function Turns(portB: Byte, wait: nat, n: nat): seq<Event>
    requires portB < 0x80
  {
    if n == 0 then []
    else Turns(portB, wait, n - 1) + [WroteB(portB + 0x80)] + [WroteB(portB)] + [Elapsed(wait)]
  }

  lemma HandledSnoc(k: State, es: seq<Event>, e: Event)
    requires Handled(k, es) && !e.Pressed? && !ResetBy(Run(k, es), e)
    ensures Handled(k, es + [e]) && Run(k, es + [e]) == Step(Run(k, es), e)
  {
    assert (es + [e])[..|es|] == es;
  }

  /** The keyboard after an acknowledge pulse. */
  function Pulsed(k: State): State {
    k.(data := 0, current := 0, delay := RELOAD_DELAY)
  }

  /** The pulse changes neither the queue nor bit 6 of port B, the keyboard reset. */
  lemma PulseAcknowledges(k: State)
    requires k.portB < 0x80
    ensures var up := WriteB(k, k.portB + 0x80);
            && !Resets(k, k.portB + 0x80) && !Resets(up, k.portB)
            && WriteB(up, k.portB) == Pulsed(k)
  {
    var up := WriteB(k, k.portB + 0x80);
    assert Acknowledges(k, k.portB + 0x80) && !Resets(k, k.portB + 0x80);
    assert up == Pulsed(k).(portB := k.portB + 0x80);
    assert !Acknowledges(up, k.portB) && !Resets(up, k.portB);
  }

  /** One turn is a pulse and the clocks. */
  lemma OneTurn(k: State, es: seq<Event>, wait: nat)
    requires Handled(k, es) && Run(k, es).portB < 0x80
    ensures var portB := Run(k, es).portB;
            var all := es + [WroteB(portB + 0x80)] + [WroteB(portB)] + [Elapsed(wait)];
            Handled(k, all) && Run(k, all) == Tick(Pulsed(Run(k, es)), wait)
  {
    var portB := Run(k, es).portB;
    PulseAcknowledges(Run(k, es));
    HandledSnoc(k, es, WroteB(portB + 0x80));
    HandledSnoc(k, es + [WroteB(portB + 0x80)], WroteB(portB));
    HandledSnoc(k, es + [WroteB(portB + 0x80)] + [WroteB(portB)], Elapsed(wait));
  }

  lemma PulseTakesNext(k: State, wait: nat, after: State)
    requires 12000 <= wait && after == Tick(Pulsed(k), wait)
    ensures after.portB == k.portB && after.queue == k.queue[Min(1, |k.queue|)..]
    ensures k.queue != [] ==> after.data == k.queue[0]
  {
  }

  /** What is left of a queue after `n` codes. */
  function Rest(q: seq<Byte>, n: nat): seq<Byte> {
    q[Min(n, |q|)..]
  }

  lemma RestNext(q: seq<Byte>, n: nat)
    ensures Rest(q, n)[Min(1, |Rest(q, n)|)..] == Rest(q, n + 1)
    ensures n < |q| ==> Rest(q, n) != [] && Rest(q, n)[0] == q[n]
  {
  }

  lemma TurnsNext(k: State, wait: nat, n: nat)
    requires k.portB < 0x80 && Handled(k, Turns(k.portB, wait, n))
    requires Run(k, Turns(k.portB, wait, n)).portB == k.portB
    ensures Handled(k, Turns(k.portB, wait, n + 1))
    ensures Run(k, Turns(k.portB, wait, n + 1)) == Tick(Pulsed(Run(k, Turns(k.portB, wait, n))), wait)
  {
    OneTurn(k, Turns(k.portB, wait, n), wait);
  }

  lemma DrainsOne(k: State, mid: State, after: State, n: nat, wait: nat)
    requires mid.portB == k.portB && mid.queue == Rest(k.queue, n)
    requires 12000 <= wait && after == Tick(Pulsed(mid), wait)
    ensures after.portB == k.portB && after.queue == Rest(k.queue, n + 1)
    ensures n < |k.queue| ==> after.data == k.queue[n]
  {
    PulseTakesNext(mid, wait, after);
    RestNext(k.queue, n);
  }

  /** Every turn of 12000 clocks takes one code off the queue, as long as there are any, and shows it. */
  lemma {:induction false} TurnsDrain(k: State, wait: nat, n: nat)
    requires k.portB < 0x80 && 12000 <= wait
    ensures var k' := Run(k, Turns(k.portB, wait, n));
            && Handled(k, Turns(k.portB, wait, n))
            && k'.portB == k.portB && k'.queue == Rest(k.queue, n)
            && (0 < n <= |k.queue| ==> k'.data == k.queue[n - 1])
  {
    if n != 0 {
      TurnsDrain(k, wait, n - 1);
      TurnsNext(k, wait, n - 1);
      DrainsOne(k, Run(k, Turns(k.portB, wait, n - 1)), Run(k, Turns(k.portB, wait, n)), n - 1, wait);
    }
  }

  /** Pressing codes leaves port B alone and queues no more than was pressed. */
  lemma {:induction false} BurstKeeps(k: State, codes: seq<Byte>)
    ensures PressAll(k, codes).portB == k.portB
    ensures |PressAll(k, codes).queue| <= |k.queue| + |codes|
  {
    if codes != [] {
      BurstKeeps(k, codes[..|codes| - 1]);
    }
  }

  /**
   Bounded arrival: text typed on a keyboard with an empty queue has arrived, every code of
   it in order, after as many acknowledges as it has codes with 12000 clocks after each.
   The handler then has the normalised text.
   */
  lemma TypedTextArrivesInTime(k: State, m: map<char, CharKey>, s: string, wait: nat)
    requires k.queue == [] && k.portB < 0x80 && IsKeymap(m) && 12000 <= wait
    ensures var codes := TextCodes(m, s);
            var all := PressEvents(codes) + Turns(k.portB, wait, |codes|);
            && PresentedSince(k, all) == codes && Run(k, all).queue == []
            && HearAll(LISTENING, PresentedSince(k, all)).text == Normalised(s)
  {
    var codes := TextCodes(m, s);
    var mid, turns := PressAll(k, codes), Turns(k.portB, wait, |codes|);
    BurstKeeps(k, codes);
    TurnsDrain(mid, wait, |codes|);
    BurstIsRun(k, codes);
    RunAppend(k, PressEvents(codes), turns);
    TypedTextArrives(k, m, s, turns);
  }

  // ----- What the handler reads -----

  /** What port A shows at the start of each turn. */
  function Reads(k: State, portB: Byte, wait: nat, n: nat): seq<Byte>
    requires portB < 0x80
  {
    if n == 0 then []
    else Reads(k, portB, wait, n - 1) + [InPort(Run(k, Turns(portB, wait, n - 1)), 0x60)]
  }

  /** A free keyboard presents the first code at once and queues the others. */
  lemma {:induction false} BurstFromFree(k: State, codes: seq<Byte>)
    requires Free(k) && k.queue == [] && codes != [] && codes[0] != 0
    ensures PressAll(k, codes) == k.(current := codes[0], data := codes[0], queue := codes[1..])
  {
    var before, c := codes[..|codes| - 1], codes[|codes| - 1];
    if before == [] {
      assert PressAll(k, before) == k && codes == [c];
    } else {
      BurstFromFree(k, before);
      assert codes[1..] == before[1..] + [c];
    }
  }

  lemma TurnReads(k: State, wait: nat, n: nat)
    requires k.portB < 0x80 && 12000 <= wait && n <= |k.queue|
    ensures InPort(Run(k, Turns(k.portB, wait, n)), 0x60) == ([k.data] + k.queue)[n]
  {
    TurnsDrain(k, wait, n);
    PortAShows(Run(k, Turns(k.portB, wait, n)));
  }

  /** The reads are the code shown at first and then the queue. */
  lemma {:induction false} ReadsQueue(k: State, wait: nat, n: nat)
    requires k.portB < 0x80 && 12000 <= wait && n <= |k.queue| + 1
    ensures Reads(k, k.portB, wait, n) == ([k.data] + k.queue)[..n]
  {
    if n != 0 {
      ReadsQueue(k, wait, n - 1);
      TurnReads(k, wait, n - 1);
      PrefixNext([k.data] + k.queue, n - 1);
    }
  }

  lemma PrefixNext(s: seq<Byte>, n: nat)
    requires n < |s|
    ensures s[..n] + [s[n]] == s[..n + 1]
  {
  }

  /**
   Text typed on a free keyboard is what the handler reads: one code on port A in each turn,
   the codes of the text in order, which it decodes to the normalised text.
   */
  lemma HandlerReadsText(k: State, m: map<char, CharKey>, s: string, wait: nat)
    requires Free(k) && k.queue == [] && k.portB < 0x80 && IsKeymap(m) && 12000 <= wait
    ensures var codes := TextCodes(m, s);
            var heard := Reads(PressAll(k, codes), k.portB, wait, |codes|);
            heard == codes && HearAll(LISTENING, heard).text == Normalised(s)
  {
    var codes := TextCodes(m, s);
    TextIsRecovered(m, s);
    if codes != [] {
      TextHasNoBlank(m, s);
      BurstFromFree(k, codes);
      ReadsQueue(PressAll(k, codes), wait, |codes|);
      assert [codes[0]] + codes[1..] == codes;
    }
  }
}
