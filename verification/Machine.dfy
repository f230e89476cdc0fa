/** The PC/XT: devices wired together around an abstract CPU, stepped by one clock. */
module Machine {
  import opened Bytes
  import opened Clock
  import Memory
  import FloppyDisk
  import Pic
  import Pit
  import Ppi
  import Dma
  import Fdc

  /** The processor is not part of this model: only HLT, the interrupt flag and what it was sent. */
  class CPU {
    var halted: bool
    var interruptsEnabled: bool
    var received: seq<bv8>

    ghost function Flags(): Cpu
      reads this
    {
      Cpu(halted, interruptsEnabled)
    }

    constructor ()
      ensures Flags() == Cpu(false, false) && received == []
    {
      halted, interruptsEnabled, received := false, false, [];
    }

    /** Entering a handler wakes the processor and clears its interrupt flag. */
    method Interrupt(vector: bv8)
      modifies this
      ensures Flags() == Cpu(false, false) && received == old(received) + [vector]
    {
      halted, interruptsEnabled := false, false;
      received := received + [vector];
    }
  }

  class XT {
    const cpu: CPU
    const mem: Memory.Bus
    const pic: Pic.PIC
    const dma: Dma.DMA
    const pit: Pit.PIT
    const ppi: Ppi.PPI
    const fdc: Fdc.FDC

    ghost predicate Valid()
      reads this, mem, pic, ppi, fdc, fdc.mem, fdc.irq6, ppi.irq1, pit.irq0
    {
      && mem.Valid() && pic.Valid() && pit.Valid() && ppi.Valid() && fdc.Valid()
      && pit.irq0 == pic && pit.refresh == dma && ppi.irq1 == pic
      && fdc.dma == dma && fdc.mem == mem && fdc.irq6 == pic
    }

    /** The state of the machine as Clock sees it. */
    ghost function State(): Sys
      requires Valid()
      reads this, mem, pic, ppi, fdc, fdc.mem, fdc.irq6, ppi.irq1, pit.irq0, cpu, dma,
            pit.counter0, pit.counter1, pit.counter2
    {
      Sys(Board(pit.State(), pic.Model(), dma.State(), ppi.View()), cpu.Flags())
    }

    /** Timer output 0 raises IRQ0, output 1 refreshes memory, keyboard and floppy raise IRQ1 and IRQ6. */
    constructor NewXT()
      ensures Valid()
      ensures State() == Sys(Board(Pit.Timer(Pit.IDLE, Pit.IDLE, Pit.IDLE), Pic.POWER_ON, Dma.RESET,
                                   Ppi.POWER_ON.(switches := 0x30)),
                             Cpu(false, false))
      ensures mem.rom == [] && fdc.disk == null && cpu.received == []
    {
      var p := new Pic.PIC();
      var k := new Ppi.PPI(p);
      k.switches := 0x30;
      var d := new Dma.DMA();
      var m := new Memory.Bus();
      cpu := new CPU();
      mem, pic, dma, ppi := m, p, d, k;
      pit := new Pit.PIT(p, d);
      fdc := new Fdc.FDC(d, m, p);
    }

    /** The image ends at the top of memory and becomes read-only. */
    method LoadBIOS(rom: seq<Byte>)
      requires Valid()
      modifies mem, mem.data
      ensures Valid() && State() == old(State())
      ensures mem.data[..] == Memory.Deposit(old(mem.data[..]), [], ToDWord(Memory.SIZE - |rom|), rom)
      ensures mem.rom == if rom == [] then old(mem.rom)
                         else old(mem.rom) + [Memory.RomOf(ToDWord(Memory.SIZE - |rom|), |rom|)]
    {
      mem.LoadROM(ToDWord(Memory.SIZE - |rom|), rom);
    }

    /** Advances all devices by the clocks of one instruction. */
    method TickBoard()
      requires Valid()
      modifies pit.counter0, pit.counter1, pit.counter2, pic, dma, ppi
      ensures Valid() && State() == Sys(Tick(old(State()).board, TIMER_CYCLES), old(State()).cpu)
    {
      pit.Tick(TIMER_CYCLES);
      ppi.TickKeyboard(TIMER_CYCLES);
    }

    method Access(op: PortOp)
      requires Valid()
      modifies pit.counter0, pit.counter1, pit.counter2, pic, dma, ppi
      ensures Valid() && State() == Sys(Apply(old(State()).board, op), old(State()).cpu)
    {
      match op
      case PitOut(port, v) => pit.Out8(port, v);
      case PitIn(port) => var _ := pit.In8(port);
      case DmaOut(port, v) => dma.Out8(port, v);
      case DmaIn(port) => var _ := dma.In8(port);
      case BytesMoved(channel, n) => var _ := dma.AdvanceChannel(channel, n);
      case _ => AccessInterrupts(op);
    }

    /** The accesses that reach the interrupt controller. */
    method AccessInterrupts(op: PortOp)
      requires Valid() && (op.PicOut? || op.PpiOut? || op.KeyDown? || op.LineRaised?)
      modifies pic, ppi
      ensures Valid() && State() == Sys(Apply(old(State()).board, op), old(State()).cpu)
    {
      match op
      case PicOut(port, v) => pic.Out8(port, v);
      case PpiOut(port, v) => ppi.Out8(port, v);
      case KeyDown(code) => ppi.PressScancode(code);
      case LineRaised(line) => pic.RaiseIRQ(line);
    }

    method AccessAll(ops: seq<PortOp>)
      requires Valid()
      modifies pit.counter0, pit.counter1, pit.counter2, pic, dma, ppi
      ensures Valid() && State() == Sys(ApplyAll(old(State()).board, ops), old(State()).cpu)
    {
      ghost var s := State();
      for n := 0 to |ops|
        invariant Valid()
        invariant State() == Sys(ApplyAll(s.board, ops[..n]), s.cpu)
      {
        assert ops[..n + 1][..n] == ops[..n];
        Access(ops[n]);
      }
      assert ops[..|ops|] == ops;
    }

    method Execute(i: Instruction)
      requires Valid()
      modifies pit.counter0, pit.counter1, pit.counter2, pic, dma, ppi, cpu
      ensures Valid() && State() == Sys(ApplyAll(old(State()).board, i.ops), i.after)
      ensures cpu.received == old(cpu.received)
    {
      AccessAll(i.ops);
      cpu.halted := i.after.halted;
      cpu.interruptsEnabled := i.after.interruptsEnabled;
    }

    /** One machine step; `i` is the instruction the processor would execute. */
    method StepOnce(i: Instruction) returns (failed: bool)
      requires Valid()
      modifies pit.counter0, pit.counter1, pit.counter2, pic, dma, ppi, cpu
      ensures Valid() && State() == Step(old(State()), i)
      ensures cpu.received == old(cpu.received) + Delivered(old(State()))
      ensures failed == Fails(old(State()), i)
    {
      TickBoard();
      var pending := pic.IsPending();
      if pending && cpu.interruptsEnabled {
        var vector := pic.AcknowledgeIRQ();
        cpu.Interrupt(vector);
        return false;
      }
      if cpu.halted {
        return false;
      }
      Execute(i);
      failed := i.invalid;
    }

    /** Step `n` of a run from state `s`, when `was` had been received. */
    method StepNth(ghost s: Sys, ghost was: seq<bv8>, prog: seq<Instruction>, n: nat) returns (failed: bool)
      requires Valid() && n < |prog| && State() == Run(s, prog[..n]) && Completed(s, prog[..n]) == n
      requires cpu.received == was + Vectors(s, prog[..n])
      modifies pit.counter0, pit.counter1, pit.counter2, pic, dma, ppi, cpu
      ensures Valid() && State() == Run(s, prog[..n + 1])
      ensures Completed(s, prog[..n + 1]) == if failed then n else n + 1
      ensures cpu.received == was + Vectors(s, prog[..n + 1])
    {
      ghost var now := State();
      failed := StepOnce(prog[n]);
      RunNext(s, prog, n, now, State());
      assert was + Vectors(s, prog[..n]) + Delivered(now) == was + (Vectors(s, prog[..n]) + Delivered(now));
    }

    /** Runs a number of steps, on through HLT, up to an instruction that fails. */
    method RunFor(prog: seq<Instruction>) returns (steps: nat, failed: bool)
      requires Valid()
      modifies pit.counter0, pit.counter1, pit.counter2, pic, dma, ppi, cpu
      ensures steps == Completed(old(State()), prog) && (failed <==> steps < |prog|)
      ensures Valid() && State() == Run(old(State()), prog[..if failed then steps + 1 else steps])
      ensures cpu.received ==
              old(cpu.received) + Vectors(old(State()), prog[..if failed then steps + 1 else steps])
    {
      ghost var s, was := State(), cpu.received;
      for n := 0 to |prog|
        invariant Valid() && State() == Run(s, prog[..n]) && Completed(s, prog[..n]) == n
        invariant cpu.received == was + Vectors(s, prog[..n])
      {
        failed := StepNth(s, was, prog, n);
        if failed {
          CompletedStays(s, prog, n);
          return n, true;
        }
      }
      assert prog[..|prog|] == prog;
      steps, failed := |prog|, false;
    }
  }
}
