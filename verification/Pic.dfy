/**
 The 8259A interrupt controller. The registers are bytes (`bv8`) searched bit by
 bit; `Controller` is the abstract machine they refine: sets of lines for the
 request and mask registers and, for the in-service register, the stack of lines
 in the order they were acknowledged.
 */
module Pic {

  type Line = n: int | 0 <= n < 8

  /** Vector bases are multiples of eight: ICW2 drops the low bits. */
  type VectorBase = b: bv8 | b & 0x07 == 0

  // ----- The abstract controller -----

  datatype Controller = Controller(
    requests: set<Line>,    // IRR
    masked: set<Line>,      // IMR
    inService: seq<Line>,   // ISR, oldest acknowledge first
    base: VectorBase,
    autoEoi: bool,
    initStep: int,
    icw4Needed: bool)

  const ALL_LINES: set<Line> := set l: Line | 0 <= l < 8

  const POWER_ON := Controller({}, ALL_LINES, [], 0, false, 0, false)

  /** The line with the highest priority, that is the lowest number. */
  function Lowest(s: set<Line>): (l: Line)
    requires s != {}
    ensures l in s
    ensures forall m | m in s :: l <= m
  {
    if 0 in s then 0 else if 1 in s then 1 else if 2 in s then 2 else if 3 in s then 3
    else if 4 in s then 4 else if 5 in s then 5 else if 6 in s then 6
    else
      assert exists l: Line :: l in s;
      7
  }

  /** The requests that are not masked. */
  function Available(c: Controller): set<Line> {
    c.requests - c.masked
  }

  /** A request can be delivered: the best one beats everything in service. */
  predicate Pending(c: Controller) {
    Available(c) != {} && forall m | m in c.inService :: Lowest(Available(c)) < m
  }

  function Raise(c: Controller, line: int): Controller {
    if 0 <= line < 8 then c.(requests := c.requests + {line}) else c
  }

  /** The interrupt acknowledge cycle. */
  function Acknowledge(c: Controller): Controller {
    if !Pending(c) then c
    else
      var line := Lowest(Available(c));
      c.(requests := c.requests - {line},
         inService := if c.autoEoi then c.inService else c.inService + [line])
  }

  /** The vector put on the bus by the acknowledge cycle. */
  function Vector(c: Controller): bv8 {
    if Pending(c) then c.base + Number(Lowest(Available(c))) else c.base
  }

  /** The stack without a given line, wherever it sits. */
  function Without(s: seq<Line>, line: Line): (r: seq<Line>)
    ensures forall m :: m in r <==> m in s && m != line
  {
    if s == [] then []
    else if s[|s| - 1] == line then Without(s[..|s| - 1], line)
    else
      assert s == s[..|s| - 1] + [s[|s| - 1]];
      Without(s[..|s| - 1], line) + [s[|s| - 1]]
  }

  /** End of interrupt: the non-specific form pops, the specific form plucks. */
  function EndOfInterrupt(c: Controller, v: bv8): Controller {
    if v & 0x60 == 0x20 then
      if c.inService == [] then c else c.(inService := c.inService[..|c.inService| - 1])
    else if v & 0x60 == 0x60 then c.(inService := Without(c.inService, LineOf(v)))
    else c
  }

  predicate IsIcw1(v: bv8) {
    v & 0x10 != 0
  }

  /** A write to port 0x20. */
  function Command(c: Controller, v: bv8): Controller {
    if IsIcw1(v) then
      c.(icw4Needed := v & 0x01 != 0, masked := {}, inService := [], requests := {}, initStep := 2)
    else if v & 0x18 == 0 then EndOfInterrupt(c, v)
    else c
  }

  /** A write to port 0x21. */
  function Data(c: Controller, v: bv8): Controller {
    if c.initStep == 2 then c.(base := v & 0xF8, initStep := if c.icw4Needed then 4 else 0)
    else if c.initStep == 4 then c.(autoEoi := v & 0x02 != 0, initStep := 0)
    else c.(masked := Lines(v))
  }

  function Out(c: Controller, port: int, v: bv8): Controller {
    if port % 2 == 0 then Command(c, v) else Data(c, v)
  }

  /** Every line in service outranks all those acknowledged before it. */
  ghost predicate Descending(s: seq<Line>) {
    forall i, j | 0 <= i < j < |s| :: s[j] < s[i]
  }

  // ----- Lines as bits of a byte -----

  /** `byte(line)`. */
  function Number(l: Line): bv8 {
    if l == 0 then 0 else if l == 1 then 1 else if l == 2 then 2 else if l == 3 then 3
    else if l == 4 then 4 else if l == 5 then 5 else if l == 6 then 6 else 7
  }

  /** `byte(1) << uint(line)`. */
  function Mask(l: Line): bv8 {
    if l == 0 then 0x01 else if l == 1 then 0x02 else if l == 2 then 0x04 else if l == 3 then 0x08
    else if l == 4 then 0x10 else if l == 5 then 0x20 else if l == 6 then 0x40 else 0x80
  }

  /** `value & 0x07` as a line number. */
  function LineOf(v: bv8): Line {
    var n := v & 0x07;
    if n == 0 then 0 else if n == 1 then 1 else if n == 2 then 2 else if n == 3 then 3
    else if n == 4 then 4 else if n == 5 then 5 else if n == 6 then 6 else 7
  }

  /** Two to the power of the line. */
  function Power(l: int): int
    requires 0 <= l
  {
    if l == 0 then 1 else 2 * Power(l - 1)
  }

  /** Bit `l` of a register has the weight 2^l, and a byte counts its line. */
  lemma {:induction false} LinesAreNumbers(l: Line)
    ensures Mask(l) as int == Power(l) && Number(l) as int == l
    ensures Lines(Mask(l)) == {l} && LineOf(0x60 | Number(l)) == l
  {
    assert Power(1) == 2 && Power(2) == 4 && Power(3) == 8 && Power(4) == 16;
    assert Power(5) == 32 && Power(6) == 64 && Power(7) == 128;
    forall m: Line ensures On(Mask(l), m) <==> m == l {
      SetBit(0, l, m);
      assert !On(0, m) && 0 | Mask(l) == Mask(l);
    }
  }

  /** The vector of a line is the number of the base plus that of the line. */
  lemma VectorNumber(base: VectorBase, l: Line)
    ensures (base + Number(l)) as int == base as int + l
  {
    if l == 0 {
    } else if l == 1 {
      assert (base + 1) as int == base as int + 1;
    } else if l == 2 {
      assert (base + 2) as int == base as int + 2;
    } else if l == 3 {
      assert (base + 3) as int == base as int + 3;
    } else if l == 4 {
      assert (base + 4) as int == base as int + 4;
    } else if l == 5 {
      assert (base + 5) as int == base as int + 5;
    } else if l == 6 {
      assert (base + 6) as int == base as int + 6;
    } else {
      assert (base + 7) as int == base as int + 7;
    }
  }

  predicate On(reg: bv8, l: Line) {
    reg & Mask(l) != 0
  }

  function Lines(reg: bv8): set<Line> {
    set l: Line | 0 <= l < 8 && On(reg, l)
  }

  lemma SetBit(reg: bv8, l: Line, m: Line)
    ensures On(reg | Mask(l), m) <==> On(reg, m) || m == l
  {
  }

  lemma ClearBit(reg: bv8, l: Line, m: Line)
    ensures On(reg & !Mask(l), m) <==> On(reg, m) && m != l
  {
  }

  lemma AndNot(a: bv8, b: bv8, m: Line)
    ensures On(a & !b, m) <==> On(a, m) && !On(b, m)
  {
  }

  lemma NoBits(reg: bv8)
    ensures reg == 0 <==> forall l: Line :: !On(reg, l)
  {
    if forall l: Line :: !On(reg, l) {
      assert !On(reg, 0) && !On(reg, 1) && !On(reg, 2) && !On(reg, 3);
      assert !On(reg, 4) && !On(reg, 5) && !On(reg, 6) && !On(reg, 7);
    }
  }

  lemma SetLine(reg: bv8, l: Line)
    ensures Lines(reg | Mask(l)) == Lines(reg) + {l}
  {
    forall m: Line { SetBit(reg, l, m); }
  }

  lemma ClearLine(reg: bv8, l: Line)
    ensures Lines(reg & !Mask(l)) == Lines(reg) - {l}
  {
    forall m: Line { ClearBit(reg, l, m); }
  }

  lemma AndNotLines(a: bv8, b: bv8)
    ensures Lines(a & !b) == Lines(a) - Lines(b)
  {
    forall m: Line { AndNot(a, b, m); }
  }

  lemma EmptyLines(reg: bv8)
    ensures reg == 0 <==> Lines(reg) == {}
  {
    NoBits(reg);
    if Lines(reg) == {} {
      forall l: Line ensures !On(reg, l) { assert l !in Lines(reg); }
    }
  }

  // ----- The stack in the in-service register -----

  /** The bits of ISR are exactly the lines of a descending stack. */
  ghost predicate Holds(isr: bv8, stack: seq<Line>) {
    Descending(stack) && forall l: Line :: l in stack <==> On(isr, l)
  }

  lemma EmptyStack(isr: bv8, stack: seq<Line>)
    requires Holds(isr, stack)
    ensures stack == [] || exists l: Line :: On(isr, l)
  {
    assert stack == [] || stack[0] in stack;
  }

  /** The top of the stack is the best line in service. */
  lemma TopIsLowest(stack: seq<Line>, l: Line)
    requires Descending(stack) && l in stack
    ensures stack[|stack| - 1] <= l
  {
  }

  lemma PushHolds(isr: bv8, stack: seq<Line>, l: Line)
    requires Holds(isr, stack) && forall m | m in stack :: l < m
    ensures Holds(isr | Mask(l), stack + [l])
  {
    forall m: Line { SetBit(isr, l, m); }
    forall i, j | 0 <= i < j < |stack + [l]| ensures (stack + [l])[j] < (stack + [l])[i] {
      assert stack[i] in stack;
    }
  }

  lemma PopHolds(isr: bv8, stack: seq<Line>, l: Line)
    requires Holds(isr, stack) && On(isr, l)
    requires forall m: Line | m < l :: !On(isr, m)
    ensures stack != [] && l == stack[|stack| - 1]
    ensures Holds(isr & !Mask(l), stack[..|stack| - 1])
  {
    assert l in stack;
    TopIsLowest(stack, l);
    assert On(isr, stack[|stack| - 1]);
    var rest := stack[..|stack| - 1];
    assert stack == rest + [l];
    forall m: Line ensures m in rest <==> On(isr & !Mask(l), m) {
      ClearBit(isr, l, m);
      if m in rest {
        var i :| 0 <= i < |rest| && rest[i] == m;
        assert stack[i] == m && stack[|stack| - 1] < stack[i];
        assert m in stack;
      }
    }
  }

  lemma {:induction false} WithoutDescends(stack: seq<Line>, l: Line)
    requires Descending(stack)
    ensures Descending(Without(stack, l))
  {
    if stack != [] {
      var rest := stack[..|stack| - 1];
      WithoutDescends(rest, l);
      forall i | 0 <= i < |Without(rest, l)| ensures Without(rest, l)[i] in rest {
        assert Without(rest, l)[i] in Without(rest, l);
      }
      forall m | m in rest ensures stack[|stack| - 1] < m {
        var i :| 0 <= i < |rest| && rest[i] == m;
        assert stack[|stack| - 1] < stack[i];
      }
    }
  }

  lemma PluckHolds(isr: bv8, stack: seq<Line>, l: Line)
    requires Holds(isr, stack)
    ensures Holds(isr & !Mask(l), Without(stack, l))
  {
    WithoutDescends(stack, l);
    forall m: Line { ClearBit(isr, l, m); }
  }

  // ----- The chip -----

  class PIC {
    var irr: bv8
    var imr: bv8
    var isr: bv8
    var base: VectorBase
    var autoEOI: bool
    var initStep: int
    var icw4Needed: bool

    ghost var stack: seq<Line>  // lines in service, oldest acknowledge first
    ghost var raised: seq<int>  // every line raised since power-on, in order

    ghost predicate Valid()
      reads this
    {
      Holds(isr, stack)
    }

    ghost function Model(): Controller
      reads this
    {
      Controller(Lines(irr), Lines(imr), stack, base, autoEOI, initStep, icw4Needed)
    }

    constructor ()
      ensures Valid()
      ensures Model() == POWER_ON && raised == []
    {
      irr, imr, isr, base := 0, 0xFF, 0, 0;
      autoEOI, initStep, icw4Needed := false, 0, false;
      stack, raised := [], [];
      new;
      EmptyLines(0);
      forall l: Line ensures On(0xFF, l) && !On(0, l) {}
    }

    method RaiseIRQ(line: int)
      requires Valid()
      modifies this
      ensures Valid()
      ensures Model() == Raise(old(Model()), line) && raised == old(raised) + [line]
    {
      raised := raised + [line];
      if line >= 0 && line < 8 {
        SetLine(irr, line);
        irr := irr | Mask(line);
      }
    }

    method HighestPending() returns (line: Line, ok: bool)
      requires Valid()
      ensures ok == Pending(Model())
      ensures ok ==> line == Lowest(Available(Model()))
    {
      var avail := irr & !imr;
      AndNotLines(irr, imr);
      EmptyLines(avail);
      if avail == 0 {
        return 0, false;
      }
      var isrLowest := 8;
      var i := 0;
      while i < 8
        invariant 0 <= i <= 8
        invariant isrLowest == 8
        invariant forall l: Line | l < i :: !On(isr, l)
      {
        if On(isr, i) {
          isrLowest := i;
          break;
        }
        i := i + 1;
      }
      assert forall l: Line | l in stack :: isrLowest <= l;
      assert isrLowest < 8 ==> isrLowest in stack;
      i := 0;
      while i < 8
        invariant 0 <= i <= 8
        invariant forall l: Line | l < i :: !On(avail, l)
      {
        if On(avail, i) {
          assert i in Lines(avail);
          assert Lowest(Lines(avail)) == i;
          return i, i < isrLowest;
        }
        i := i + 1;
      }
      NoBits(avail);
      assert false;
    }

    method IsPending() returns (ok: bool)
      requires Valid()
      ensures ok == Pending(Model())
    {
      var _, found := HighestPending();
      ok := found;
    }

    method AcknowledgeIRQ() returns (vector: bv8)
      requires Valid()
      modifies this
      ensures Valid()
      ensures Model() == Acknowledge(old(Model())) && raised == old(raised)
      ensures vector == Vector(old(Model()))
      ensures vector as int == base as int + if Pending(old(Model())) then Lowest(Available(old(Model()))) else 0
    {
      var line, ok := HighestPending();
      if !ok {
        return base;
      }
      MoveToService(line);
      VectorNumber(base, line);
      vector := base + Number(line);
    }

    /** Moves a line that outranks everything in service from IRR to ISR. */
    method MoveToService(line: Line)
      requires Valid() && forall m | m in stack :: line < m
      modifies this`irr, this`isr, this`stack
      ensures Valid()
      ensures Model() == old(Model()).(requests := old(Model()).requests - {line},
                                       inService := if autoEOI then old(stack) else old(stack) + [line])
    {
      irr := Cleared(irr, line);
      if !autoEOI {
        isr := Pushed(isr, stack, line);
        stack := stack + [line];
      }
    }

    static method Cleared(reg: bv8, line: Line) returns (r: bv8)
      ensures Lines(r) == Lines(reg) - {line}
    {
      ClearLine(reg, line);
      r := reg & !Mask(line);
    }

    static method Pushed(reg: bv8, ghost stack: seq<Line>, line: Line) returns (r: bv8)
      requires Holds(reg, stack) && forall m | m in stack :: line < m
      ensures Holds(r, stack + [line])
    {
      PushHolds(reg, stack, line);
      r := reg | Mask(line);
    }

    method In8(port: int) returns (v: bv8)
      ensures v == if port % 2 == 1 then imr else irr
    {
      if port % 2 == 1 {
        return imr;
      }
      v := irr;
    }

    method Out8(port: int, value: bv8)
      requires Valid()
      modifies this
      ensures Valid()
      ensures Model() == Out(old(Model()), port, value) && raised == old(raised)
      ensures port % 2 == 1 && old(initStep) == 0 ==> imr == value && irr == old(irr)
    {
      if port % 2 == 0 {
        if value & 0x10 != 0 {
          icw4Needed := value & 0x01 != 0;
          imr, isr, irr := 0, 0, 0;
          stack := [];
          initStep := 2;
          EmptyLines(0);
          NoBits(0);
        } else if value & 0x18 == 0 {
          HandleOCW2(value);
        }
        return;
      }
      if initStep == 2 {
        base := value & 0xF8;
        initStep := if icw4Needed then 4 else 0;
      } else if initStep == 4 {
        autoEOI := value & 0x02 != 0;
        initStep := 0;
      } else {
        imr := value;
      }
    }

    method HandleOCW2(value: bv8)
      requires Valid()
      modifies this`isr, this`stack
      ensures Valid()
      ensures Model() == EndOfInterrupt(old(Model()), value)
    {
      if value & 0x60 == 0x20 {
        var i := 0;
        while i < 8
          invariant 0 <= i <= 8
          invariant forall l: Line | l < i :: !On(isr, l)
          invariant Valid() && Model() == old(Model())
        {
          if On(isr, i) {
            PopHolds(isr, stack, i);
            isr := isr & !Mask(i);
            stack := stack[..|stack| - 1];
            return;
          }
          i := i + 1;
        }
        EmptyStack(isr, stack);
      } else if value & 0x60 == 0x60 {
        PluckHolds(isr, stack, LineOf(value));
        isr := isr & !Mask(LineOf(value));
        stack := Without(stack, LineOf(value));
      }
    }
  }
}
