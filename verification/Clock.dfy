/**
 The machine as one state: timer, interrupt controller, DMA refresh, keyboard and an
 abstract CPU. Each step advances the clock and then delivers an interrupt, waits in
 HLT, or executes one instruction, which is an arbitrary list of port accesses.
 */
module Clock {
  import opened Bytes
  import Pic
  import Pit
  import Dma
  import Ppi
  import KeyboardRuns
  import PicRuns

  datatype Board = Board(timer: Pit.Timer, pic: Pic.Controller, dma: Dma.Registers, keyboard: Ppi.State)

  /** What the machine sees of the CPU: HLT and the interrupt flag. */
  datatype Cpu = Cpu(halted: bool, interruptsEnabled: bool)

  datatype Sys = Sys(board: Board, cpu: Cpu)

  /**
   A port access of an instruction, or what a device outside the board does to it: raise a
   line, or move bytes over a DMA channel.
   */
  datatype PortOp =
    | PicOut(picPort: Word, bits: bv8)
    | PitOut(pitPort: Word, pitValue: Byte)
    | PitIn(pitPort: Word)
    | DmaOut(dmaPort: Word, dmaValue: Byte)
    | DmaIn(dmaPort: Word)
    | PpiOut(ppiPort: Word, ppiValue: Byte)
    | KeyDown(code: Byte)
    | LineRaised(line: int)
    | BytesMoved(channel: Dma.ChannelNo, bytes: nat)

  /** One instruction: its port accesses, the CPU flags it leaves, and whether it is an error. */
  datatype Instruction = Instruction(ops: seq<PortOp>, after: Cpu, invalid: bool)

  const TIMER_CYCLES: nat := 8

  // ----- Time -----

  /** All devices advanced by `n` clocks, the timer first. */
  function Tick(b: Board, n: nat): Board {
    var timed := if 0 < Pit.Pulses(b.timer.c0, n) then Pic.Raise(b.pic, 0) else b.pic;
    Board(Pit.TimerTicked(b.timer, n),
          if Ppi.Due(b.keyboard, n) then Pic.Raise(timed, 1) else timed,
          Dma.Refreshed(b.dma, Pit.Pulses(b.timer.c1, n)),
          Ppi.Tick(b.keyboard, n))
  }

  lemma TimerAdds(t: Pit.Timer, a: nat, c: nat)
    ensures Pit.TimerTicked(Pit.TimerTicked(t, a), c) == Pit.TimerTicked(t, a + c)
    ensures Pit.Pulses(t.c0, a) + Pit.Pulses(Pit.Ticked(t.c0, a), c) == Pit.Pulses(t.c0, a + c)
    ensures Pit.Pulses(t.c1, a) + Pit.Pulses(Pit.Ticked(t.c1, a), c) == Pit.Pulses(t.c1, a + c)
  {
    Pit.TickAdds(t.c0, a, c);
    Pit.TickAdds(t.c1, a, c);
    Pit.TickAdds(t.c2, a, c);
  }

  /**
   What the board's clock does to the lines and to memory refresh once the counters are
   programmed: IRQ0 after a period of counter 0, one refresh cycle in every period of
   counter 1, IRQ1 when the keyboard's delay is over.
   */
  lemma ClockDrives(b: Board, t0: Pit.Timer, w0: Word, t1: Pit.Timer, w1: Word, low0: int, low1: int, n: nat)
    requires Pit.RunsFrom(t0, b.timer, 0, w0, low0) && Pit.RunsFrom(t1, b.timer, 1, w1, low1)
    ensures var b' := Tick(b, n);
            && (0 in b'.pic.requests <==> 0 in b.pic.requests || (if w0 == 0 then 0x1_0000 else w0) <= n)
            && (1 in b'.pic.requests <==> 1 in b.pic.requests || Ppi.Due(b.keyboard, n))
            && (forall l: Pic.Line | 2 <= l :: l in b'.pic.requests <==> l in b.pic.requests)
            && b'.dma == Dma.Refreshed(b.dma, n / if w1 == 0 then 0x1_0000 else w1)
  {
    Pit.FiresEveryPeriod(t0, b.timer, 0, w0, low0, n);
    Pit.FiresEveryPeriod(t1, b.timer, 1, w1, low1, n);
  }

  lemma DueAdds(k: Ppi.State, a: nat, c: nat)
    requires !KeyboardRuns.BlankPresented(k, a)
    ensures Ppi.Due(k, a + c) <==> Ppi.Due(k, a) || Ppi.Due(Ppi.Tick(k, a), c)
  {
  }

  /**
   Time is additive over the whole board - counters, interrupt requests, refresh count
   and its Terminal Count bit, keyboard - except exactly when a queued code 0 lets a
   second code through. IRQ0 fires once per call, but requests do not add up.
   */
  lemma TimeAdds(b: Board, a: nat, c: nat)
    ensures Tick(Tick(b, a), c) == Tick(b, a + c) <==> !KeyboardRuns.BlankPresented(b.keyboard, a)
  {
    TimerAdds(b.timer, a, c);
    Dma.RefreshAdds(b.dma, Pit.Pulses(b.timer.c1, a), Pit.Pulses(Pit.Ticked(b.timer.c1, a), c));
    KeyboardRuns.KeyboardTimeAdds(b.keyboard, a, c);
    if !KeyboardRuns.BlankPresented(b.keyboard, a) {
      DueAdds(b.keyboard, a, c);
      assert Tick(Tick(b, a), c).pic.requests == Tick(b, a + c).pic.requests;
    }
  }

  // ----- Steps -----

  function Apply(b: Board, op: PortOp): Board {
    match op
    case PicOut(port, v) => b.(pic := Pic.Out(b.pic, port, v))
    case PitOut(port, v) => b.(timer := Pit.OutPort(b.timer, port, v))
    case PitIn(port) => b.(timer := Pit.InPort(b.timer, port).0)
    case DmaOut(port, v) => b.(dma := Dma.OutPort(b.dma, port, v))
    case DmaIn(port) => b.(dma := Dma.InPort(b.dma, port).0)
    case PpiOut(port, v) =>
      b.(keyboard := Ppi.OutPort(b.keyboard, port, v),
         pic := if port % 4 == 1 && Ppi.Resets(b.keyboard, v) then Pic.Raise(b.pic, 1) else b.pic)
    case KeyDown(code) =>
      b.(keyboard := Ppi.Press(b.keyboard, code),
         pic := if Ppi.Free(b.keyboard) then Pic.Raise(b.pic, 1) else b.pic)
    case LineRaised(line) => b.(pic := Pic.Raise(b.pic, line))
    case BytesMoved(channel, n) => b.(dma := Dma.Transferred(b.dma, channel, n))
  }

  function ApplyAll(b: Board, ops: seq<PortOp>): Board {
    if ops == [] then b else Apply(ApplyAll(b, ops[..|ops| - 1]), ops[|ops| - 1])
  }

  /** The step delivers an interrupt. */
  predicate Delivers(s: Sys) {
    s.cpu.interruptsEnabled && Pic.Pending(Tick(s.board, TIMER_CYCLES).pic)
  }

  /** The vector the step delivers. */
  function Delivered(s: Sys): seq<bv8> {
    if Delivers(s) then [Pic.Vector(Tick(s.board, TIMER_CYCLES).pic)] else []
  }

  /** One step of the machine; an interrupt wakes the CPU and clears its interrupt flag. */
  function Step(s: Sys, i: Instruction): Sys {
    var b := Tick(s.board, TIMER_CYCLES);
    if Delivers(s) then Sys(b.(pic := Pic.Acknowledge(b.pic)), Cpu(false, false))
    else if s.cpu.halted then Sys(b, s.cpu)
    else Sys(ApplyAll(b, i.ops), i.after)
  }

  function Run(s: Sys, prog: seq<Instruction>): Sys {
    if prog == [] then s else Step(Run(s, prog[..|prog| - 1]), prog[|prog| - 1])
  }

  /** The step executes an instruction that the CPU reports as an error. */
  predicate Fails(s: Sys, i: Instruction) {
    !Delivers(s) && !s.cpu.halted && i.invalid
  }

  /** Step `k` of the run is the one that fails. */
  predicate FailsAt(s: Sys, prog: seq<Instruction>, k: int)
    requires 0 <= k < |prog|
  {
    Fails(Run(s, prog[..k]), prog[k])
  }

  /** The vectors delivered over a run. */
  function Vectors(s: Sys, prog: seq<Instruction>): seq<bv8> {
    if prog == [] then []
    else Vectors(s, prog[..|prog| - 1]) + Delivered(Run(s, prog[..|prog| - 1]))
  }

  /** Steps completed before the first that fails. */
  function Completed(s: Sys, prog: seq<Instruction>): (n: nat)
    ensures n <= |prog|
  {
    if prog == [] then 0
    else
      var before, i := prog[..|prog| - 1], prog[|prog| - 1];
      var n := Completed(s, before);
      if n < |before| || Fails(Run(s, before), i) then n else n + 1
  }

  /** One more step of the run, and what it delivers. */
  lemma RunNext(s: Sys, prog: seq<Instruction>, n: nat, now: Sys, after: Sys)
    requires n < |prog| && now == Run(s, prog[..n]) && after == Step(now, prog[n])
    ensures Run(s, prog[..n + 1]) == after
    ensures Vectors(s, prog[..n + 1]) == Vectors(s, prog[..n]) + Delivered(now)
    ensures Completed(s, prog[..n]) == n ==>
              Completed(s, prog[..n + 1]) == if Fails(now, prog[n]) then n else n + 1
  {
    assert prog[..n + 1][..n] == prog[..n];
  }

  /** A run that has failed completes no more steps. */
  lemma {:induction false} CompletedStays(s: Sys, prog: seq<Instruction>, n: nat)
    requires n < |prog| && Completed(s, prog[..n + 1]) == n
    ensures Completed(s, prog) == n
  {
    var before := prog[..|prog| - 1];
    if n < |before| {
      assert before[..n + 1] == prog[..n + 1];
      CompletedStays(s, before, n);
    } else {
      assert prog[..n + 1] == prog;
    }
  }

  /** The completed steps are exactly those before the first that fails. */
  lemma {:induction false} CompletedIs(s: Sys, prog: seq<Instruction>, k: nat)
    requires k < |prog|
    ensures k < Completed(s, prog) ==> !FailsAt(s, prog, k)
    ensures k == Completed(s, prog) ==> FailsAt(s, prog, k)
  {
    var before := prog[..|prog| - 1];
    if k < |before| {
      assert before[..k] == prog[..k];
      CompletedIs(s, before, k);
    }
  }

  /**
   A delivery wakes the CPU with interrupts disabled, so that the next one waits for its
   handler; a halted CPU executes nothing; a running one executes and may fail.
   */
  lemma StepOutcomes(s: Sys, i: Instruction)
    ensures Delivers(s) ==> Step(s, i).cpu == Cpu(false, false) && !Delivers(Step(s, i)) && !Fails(s, i)
    ensures !Delivers(s) && s.cpu.halted ==> Step(s, i) == Sys(Tick(s.board, 8), s.cpu) && !Fails(s, i)
    ensures !Delivers(s) && !s.cpu.halted ==>
              Step(s, i) == Sys(ApplyAll(Tick(s.board, 8), i.ops), i.after) && (Fails(s, i) <==> i.invalid)
  {
  }

  // ----- Interrupts are deserved -----

  /** Requested, unmasked and better than everything in service. */
  ghost predicate Deserves(c: Pic.Controller, l: Pic.Line) {
    l in c.requests && l !in c.masked && forall m | m in c.inService :: l < m
  }

  /**
   An interrupt is delivered only with the interrupt flag set and only for a line that
   deserves it; its vector is base + line, its request is taken and it is in service.
   The controller is never acknowledged with nothing pending.
   */
  lemma DeliveryIsDeserved(s: Sys, i: Instruction)
    requires Delivers(s)
    ensures s.cpu.interruptsEnabled
    ensures var c, c' := Tick(s.board, TIMER_CYCLES).pic, Step(s, i).board.pic;
            exists l: Pic.Line :: Deserves(c, l) && Served(c, c', l)
              && |Delivered(s)| == 1 && Delivered(s)[0] as int == c.base as int + l
  {
    var c := Tick(s.board, TIMER_CYCLES).pic;
    AcknowledgeServes(c);
    Pic.VectorNumber(c.base, Pic.Lowest(Pic.Available(c)));
  }

  /** The line moved from the requests to the lines in service (not with automatic EOI). */
  ghost predicate Served(c: Pic.Controller, c': Pic.Controller, l: Pic.Line) {
    c'.requests == c.requests - {l} && c'.inService == if c.autoEoi then c.inService else c.inService + [l]
  }

  lemma AcknowledgeServes(c: Pic.Controller)
    requires Pic.Pending(c)
    ensures var l := Pic.Lowest(Pic.Available(c));
            Deserves(c, l) && Served(c, Pic.Acknowledge(c), l) && Pic.Vector(c) == c.base + Pic.Number(l)
  {
    assert Pic.Lowest(Pic.Available(c)) in Pic.Available(c);
  }

  lemma {:induction false} ApplyAllDescends(b: Board, ops: seq<PortOp>)
    requires Pic.Descending(b.pic.inService)
    ensures Pic.Descending(ApplyAll(b, ops).pic.inService)
  {
    if ops != [] {
      var op := ops[|ops| - 1];
      ApplyAllDescends(b, ops[..|ops| - 1]);
      if op.PicOut? {
        PicRuns.StepDescends(ApplyAll(b, ops[..|ops| - 1]).pic, PicRuns.Wrote(op.picPort, op.bits));
      }
    }
  }

  lemma StepDescends(s: Sys, i: Instruction)
    requires Pic.Descending(s.board.pic.inService)
    ensures Pic.Descending(Step(s, i).board.pic.inService)
  {
    var b := Tick(s.board, TIMER_CYCLES);
    if Delivers(s) {
      PicRuns.StepDescends(b.pic, PicRuns.Acked);
    } else if !s.cpu.halted {
      ApplyAllDescends(b, i.ops);
    }
  }

  /**
   Whatever the program does, handlers nest by priority: over any run of the machine the
   lines in service stay in strictly rising priority, the newest being the best.
   */
  lemma {:induction false} HandlersNest(s: Sys, prog: seq<Instruction>)
    requires Pic.Descending(s.board.pic.inService)
    ensures Pic.Descending(Run(s, prog).board.pic.inService)
    decreases |prog|
  {
    if prog != [] {
      HandlersNest(s, prog[..|prog| - 1]);
      StepDescends(Run(s, prog[..|prog| - 1]), prog[|prog| - 1]);
    }
  }

  // ----- Idling -----

  /** Idle so far: no interrupt was delivered and the CPU was halted from the start. */
  predicate Idled(s: Sys, prog: seq<Instruction>) {
    s.cpu.halted && Vectors(s, prog) == []
  }

  lemma IdledPrefix(s: Sys, prog: seq<Instruction>)
    requires Idled(s, prog) && prog != []
    ensures Idled(s, prog[..|prog| - 1]) && !Delivers(Run(s, prog[..|prog| - 1]))
  {
  }

  /** Queued keyboard codes are real codes: 0 stands for none. */
  predicate RealCodes(k: Ppi.State) {
    0 !in k.queue
  }

  lemma TickKeepsRealCodes(k: Ppi.State, n: nat)
    requires RealCodes(k)
    ensures RealCodes(Ppi.Tick(k, n)) && !KeyboardRuns.BlankPresented(k, n)
  {
    assert k.queue != [] ==> k.queue[0] in k.queue;
  }

  /** What `n` idle steps should leave. */
  function Idle(s: Sys, n: nat): Sys {
    Sys(Tick(s.board, 8 * n), s.cpu)
  }

  /** k idle steps of the machine are one tick of 8k clocks. */
  lemma {:induction false} IdleStepsAreOneTick(s: Sys, prog: seq<Instruction>)
    requires Idled(s, prog) && prog != [] && RealCodes(s.board.keyboard)
    ensures Run(s, prog) == Idle(s, |prog|)
    decreases |prog|
  {
    var before, i := prog[..|prog| - 1], prog[|prog| - 1];
    IdledPrefix(s, prog);
    if before == [] {
      IdleStep(s, i);
    } else {
      IdleStepsAreOneTick(s, before);
      IdleStepAfter(s, Run(s, before), i, |before|);
    }
  }

  lemma IdleStepAfter(s: Sys, mid: Sys, i: Instruction, n: nat)
    requires s.cpu.halted && RealCodes(s.board.keyboard)
    requires mid == Idle(s, n) && !Delivers(mid)
    ensures Step(mid, i) == Idle(s, n + 1)
  {
    IdleStep(mid, i);
    TickKeepsRealCodes(s.board.keyboard, TIMER_CYCLES * n);
    TimeAdds(s.board, TIMER_CYCLES * n, TIMER_CYCLES);
  }

  lemma IdleStep(s: Sys, i: Instruction)
    requires s.cpu.halted && !Delivers(s)
    ensures Step(s, i) == Sys(Tick(s.board, TIMER_CYCLES), s.cpu)
  {
  }

  // ----- Waking up -----

  /** Counter 0 runs, and line 0 is neither masked nor in service. */
  predicate TimerArmed(b: Board) {
    b.timer.c0.running && 0 !in b.pic.masked && 0 !in b.pic.inService
  }

  lemma ArmedAfterTick(b: Board, n: nat)
    requires TimerArmed(b)
    ensures TimerArmed(Tick(b, n))
    ensures Pit.Left(b.timer.c0) <= n ==> Pic.Pending(Tick(b, n).pic)
    ensures n < Pit.Left(b.timer.c0) ==> Pit.Left(Tick(b, n).timer.c0) == Pit.Left(b.timer.c0) - n
  {
    var c := Tick(b, n).pic;
    if Pit.Left(b.timer.c0) <= n {
      assert 0 < Pit.Pulses(b.timer.c0, n);
      assert 0 in Pic.Available(c);
    }
  }

  /** As long as nothing was delivered the timer has not run out. */
  lemma {:induction false} StillWaiting(s: Sys, prog: seq<Instruction>)
    requires Idled(s, prog) && s.cpu.interruptsEnabled && TimerArmed(s.board)
    ensures Run(s, prog).cpu == s.cpu && TimerArmed(Run(s, prog).board)
    ensures TIMER_CYCLES * |prog| < Pit.Left(s.board.timer.c0)
    ensures Pit.Left(Run(s, prog).board.timer.c0) == Pit.Left(s.board.timer.c0) - TIMER_CYCLES * |prog|
    decreases |prog|
  {
    if prog != [] {
      IdledPrefix(s, prog);
      StillWaiting(s, prog[..|prog| - 1]);
      ArmedAfterTick(Run(s, prog[..|prog| - 1]).board, TIMER_CYCLES);
    }
  }

  /**
   Bounded wake-up: a halted CPU with interrupts enabled, counter 0 running and line 0
   neither masked nor in service receives an interrupt within ceil(left / 8) steps,
   where `left` is what the counter has left: at most 8192 steps, whatever the reload,
   the other lines in service and the other devices do.
   */
  lemma WakesUp(s: Sys, prog: seq<Instruction>)
    requires s.cpu == Cpu(true, true) && TimerArmed(s.board)
    requires (Pit.Left(s.board.timer.c0) + 7) / 8 <= |prog| || 8192 <= |prog|
    ensures Vectors(s, prog) != []
  {
    if Vectors(s, prog) == [] {
      StillWaiting(s, prog);
    }
  }

  /** No other line can be delivered: nothing is requested unmasked and no code is queued. */
  predicate TimerOnly(b: Board) {
    TimerArmed(b) && Pic.Available(b.pic) == {} && b.keyboard.queue == []
  }

  lemma TimerOnlyAfterTick(b: Board, n: nat)
    requires TimerOnly(b)
    ensures n < Pit.Left(b.timer.c0) ==> TimerOnly(Tick(b, n)) && !Pic.Pending(Tick(b, n).pic)
  {
    ArmedAfterTick(b, n);
  }

  /** While the timer has not run out nothing is delivered. */
  lemma {:induction false} NothingBeforeTimer(s: Sys, prog: seq<Instruction>)
    requires s.cpu == Cpu(true, true) && TimerOnly(s.board)
    requires TIMER_CYCLES * |prog| < Pit.Left(s.board.timer.c0)
    ensures Vectors(s, prog) == [] && TimerOnly(Run(s, prog).board)
    decreases |prog|
  {
    if prog != [] {
      var before := prog[..|prog| - 1];
      NothingBeforeTimer(s, before);
      StillWaiting(s, before);
      TimerOnlyAfterTick(Run(s, before).board, TIMER_CYCLES);
    }
  }

  /** With only the timer to wait for, the wake-up comes exactly when the counter runs out. */
  lemma WakesExactly(s: Sys, prog: seq<Instruction>)
    requires s.cpu == Cpu(true, true) && TimerOnly(s.board)
    ensures Vectors(s, prog) == [] <==> 8 * |prog| < Pit.Left(s.board.timer.c0)
  {
    if Vectors(s, prog) == [] {
      StillWaiting(s, prog);
    }
    if TIMER_CYCLES * |prog| < Pit.Left(s.board.timer.c0) {
      NothingBeforeTimer(s, prog);
    }
  }
}
