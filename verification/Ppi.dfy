/**
 The 8255 peripheral interface: port B, the DIP switches and the keyboard. Scan codes
 queue up and are presented one at a time; the BIOS acknowledges a code by pulsing bit
 7 of port B, and the next one appears after a transmission delay.
 */
module Ppi {
  import opened Bytes
  import Pic

  const RELOAD_DELAY := 12000

  const SELF_TEST: Byte := 0xAA

  datatype State = State(
    portB: Byte,
    control: Byte,
    switches: Byte,
    data: Byte,          // what port A shows
    queue: seq<Byte>,
    current: Byte,       // the code being presented, 0 for none
    delay: nat)          // clocks before the next presentation

  const POWER_ON := State(0, 0, 0, 0, [], 0, 0)

  /** Takes the next code from the queue and presents it. */
  function Advance(k: State): State {
    if k.queue == [] then k
    else k.(current := k.queue[0], queue := k.queue[1..], data := k.queue[0])
  }

  /** The codes presented by advancing: one, or none from an empty queue. */
  function Shown(k: State): seq<Byte> {
    if k.queue == [] then [] else [k.queue[0]]
  }

  /** The keyboard can present a code at once. */
  predicate Free(k: State) {
    k.current == 0 && k.delay == 0 && !Bit(k.portB, 0x80)
  }

  function Queued(k: State, code: Byte): State {
    k.(queue := k.queue + [code])
  }

  function Press(k: State, code: Byte): State {
    if Free(k) then Advance(Queued(k, code)) else Queued(k, code)
  }

  /** The delay ends within `n` clocks and a code is waiting. */
  predicate Due(k: State, n: int) {
    k.current == 0 && k.queue != [] && (k.delay == 0 || k.delay <= n)
  }

  function Tick(k: State, n: int): State {
    if k.current != 0 || k.queue == [] then k
    else if 0 < k.delay && n < k.delay then k.(delay := k.delay - n)
    else Advance(k.(delay := 0))
  }

  predicate Acknowledges(k: State, v: Byte) {
    Bit(v, 0x80) && !Bit(k.portB, 0x80)
  }

  predicate Resets(k: State, v: Byte) {
    Bit(v, 0x40) && !Bit(k.portB, 0x40)
  }

  /** A write to port B: acknowledge and reset are rising edges of bits 7 and 6. */
  function WriteB(k: State, v: Byte): State {
    var acked := if Acknowledges(k, v) then k.(data := 0, current := 0, delay := RELOAD_DELAY) else k;
    var reset := if Resets(k, v) then acked.(queue := [], current := SELF_TEST, data := SELF_TEST) else acked;
    reset.(portB := v)
  }

  /** The lines raised by the keyboard: IRQ1 or none. */
  function Irq1(fires: bool): seq<int> {
    if fires then [1] else []
  }

  function OutPort(k: State, port: Word, v: Byte): State {
    if port % 4 == 1 then WriteB(k, v)
    else if port % 4 == 3 then k.(control := v)
    else k
  }

  function InPort(k: State, port: Word): Byte {
    if port % 4 == 0 then if Bit(k.portB, 0x80) then k.switches else k.data
    else if port % 4 == 1 then k.portB
    else if port % 4 == 2 then if Bit(k.portB, 0x08) then k.switches / 0x10 else k.switches % 0x10
    else 0xFF
  }

  class PPI {
    var portB: Byte
    var control: Byte
    var switches: Byte
    var keyboardData: Byte
    var kbQueue: seq<Byte>
    var kbCurrent: Byte
    var kbDelay: int
    const irq1: Pic.PIC

    ghost predicate Valid()
      reads this, irq1
    {
      0 <= kbDelay && irq1.Valid()
    }

    ghost function View(): State
      requires 0 <= kbDelay
      reads this
    {
      State(portB, control, switches, keyboardData, kbQueue, kbCurrent, kbDelay)
    }

    constructor (irq1: Pic.PIC)
      requires irq1.Valid()
      ensures Valid() && View() == POWER_ON && this.irq1 == irq1
    {
      portB, control, switches, keyboardData := 0, 0, 0, 0;
      kbQueue, kbCurrent, kbDelay := [], 0, 0;
      this.irq1 := irq1;
    }

    method In8(port: Word) returns (b: Byte)
      requires Valid()
      ensures b == InPort(View(), port)
    {
      if port % 4 == 0 {
        b := keyboardData;
        if Bit(portB, 0x80) {
          b := switches;
        }
      } else if port % 4 == 1 {
        b := portB;
      } else if port % 4 == 2 {
        b := if Bit(portB, 0x08) then switches / 0x10 else switches % 0x10;
      } else {
        b := 0xFF;
      }
    }

    method Out8(port: Word, value: Byte)
      requires Valid()
      modifies this, irq1
      ensures Valid() && View() == OutPort(old(View()), port, value)
      ensures irq1.Model() == if port % 4 == 1 && Resets(old(View()), value)
                              then Pic.Raise(old(irq1.Model()), 1) else old(irq1.Model())
      ensures irq1.raised == old(irq1.raised) + Irq1(port % 4 == 1 && Resets(old(View()), value))
    {
      if port % 4 == 1 {
        var before := portB;
        portB := value;
        if Bit(value, 0x80) && !Bit(before, 0x80) {
          keyboardData := 0;
          kbCurrent := 0;
          kbDelay := RELOAD_DELAY;
        }
        if Bit(value, 0x40) && !Bit(before, 0x40) {
          kbQueue := [];
          kbCurrent := SELF_TEST;
          keyboardData := SELF_TEST;
          irq1.RaiseIRQ(1);
        }
      } else if port % 4 == 3 {
        control := value;
      }
    }

    method PressScancode(code: Byte)
      requires Valid()
      modifies this, irq1
      ensures Valid() && View() == Press(old(View()), code)
      ensures irq1.Model() == if Free(old(View())) then Pic.Raise(old(irq1.Model()), 1) else old(irq1.Model())
      ensures irq1.raised == old(irq1.raised) + Irq1(Free(old(View())))
      ensures switches == old(switches)
    {
      kbQueue := kbQueue + [code];
      if kbCurrent == 0 && kbDelay == 0 && !Bit(portB, 0x80) {
        AdvanceKey();
      }
    }

    method TickKeyboard(cycles: int)
      requires Valid()
      modifies this, irq1
      ensures Valid() && View() == Tick(old(View()), cycles)
      ensures irq1.Model() == if Due(old(View()), cycles)
                              then Pic.Raise(old(irq1.Model()), 1) else old(irq1.Model())
      ensures irq1.raised == old(irq1.raised) + Irq1(Due(old(View()), cycles))
    {
      if kbCurrent != 0 || |kbQueue| == 0 {
        return;
      }
      if kbDelay > 0 {
        kbDelay := kbDelay - cycles;
        if kbDelay > 0 {
          return;
        }
        kbDelay := 0;
      }
      AdvanceKey();
    }

    method AdvanceKey()
      requires Valid()
      modifies this`kbCurrent, this`kbQueue, this`keyboardData, irq1
      ensures Valid() && View() == Advance(old(View()))
      ensures irq1.Model() == if old(kbQueue) == [] then old(irq1.Model()) else Pic.Raise(old(irq1.Model()), 1)
      ensures irq1.raised == old(irq1.raised) + Irq1(old(kbQueue) != [])
    {
      if |kbQueue| == 0 {
        return;
      }
      kbCurrent := kbQueue[0];
      kbQueue := kbQueue[1..];
      keyboardData := kbCurrent;
      irq1.RaiseIRQ(1);
    }
  }
}
