/**
 Whole runs of the interrupt controller: any interleaving of raised lines,
 acknowledge cycles and port writes (masks, EOIs, ICW sequences).
 */
module PicRuns {
  import opened Pic

  datatype Event =
    | Raised(line: int)
    | Acked
    | Wrote(port: int, value: bv8)

  function Step(c: Controller, e: Event): Controller {
    match e
    case Raised(line) => Raise(c, line)
    case Acked => Acknowledge(c)
    case Wrote(port, value) => Out(c, port, value)
  }

  function Run(c: Controller, es: seq<Event>): Controller {
    if es == [] then c else Step(Run(c, es[..|es| - 1]), es[|es| - 1])
  }

  /** The event is an acknowledge cycle that serves this line. */
  predicate Serves(c: Controller, e: Event, l: Line) {
    e.Acked? && Pending(c) && Lowest(Available(c)) == l
  }

  predicate Reinitialises(e: Event) {
    e.Wrote? && e.port % 2 == 0 && IsIcw1(e.value)
  }

  /** The port writes of the initialisation sequence; ICW4 is sent when ICW1 announces it. */
  function Initialisation(icw1: bv8, base: bv8, icw4: bv8, mask: bv8): seq<Event> {
    [Wrote(0x20, icw1), Wrote(0x21, base)]
    + (if icw1 & 0x01 != 0 then [Wrote(0x21, icw4)] else []) + [Wrote(0x21, mask)]
  }

  /**
   The initialisation sequence - ICW1, vector base, ICW4 if ICW1 announces it, mask -
   leaves the controller with no requests, nothing in service and the values written, from
   any state; without ICW4 the end-of-interrupt mode stays what it was.
   */
  lemma InitialisesFully(c: Controller, icw1: bv8, base: bv8, icw4: bv8, mask: bv8)
    requires icw1 & 0x10 != 0
    ensures var full := icw1 & 0x01 != 0;
            Run(c, Initialisation(icw1, base, icw4, mask)) ==
            Controller({}, Lines(mask), [], base & 0xF8, if full then icw4 & 0x02 != 0 else c.autoEoi, 0, full)
  {
    var es := Initialisation(icw1, base, icw4, mask);
    assert es[..2][..1] == es[..1] && es[..1][..0] == [];
    var c1 := Step(c, es[0]);
    assert Run(c, es[..1]) == c1;
    var c2 := Step(c1, es[1]);
    assert Run(c, es[..2]) == c2;
    if icw1 & 0x01 != 0 {
      assert es[..3][..2] == es[..2];
      assert Run(c, es[..3]) == Step(c2, es[2]);
    }
  }

  /** ICW1 alone drops requests and lines in service and opens every line. */
  lemma RestartOpensAll(c: Controller, icw1: bv8)
    requires icw1 & 0x10 != 0
    ensures var c' := Step(c, Wrote(0x20, icw1));
            c'.masked == {} && c'.requests == {} && c'.inService == [] && !Pending(c')
  {
  }

  /** Until it is initialised or its mask is written the controller delivers nothing that is raised. */
  lemma {:induction false} SilentAtPowerOn(es: seq<Event>)
    requires forall i | 0 <= i < |es| :: es[i].Raised?
    ensures !Pending(Run(POWER_ON, es)) && Run(POWER_ON, es).masked == ALL_LINES
  {
    if es != [] {
      SilentAtPowerOn(es[..|es| - 1]);
    }
  }

  /** The data port reads back the mask that was written, the command port the requests. */
  method ReadBack(p: PIC, mask: bv8) returns (data: bv8, command: bv8)
    requires p.Valid() && p.initStep == 0
    modifies p
    ensures p.Valid() && data == mask && Lines(command) == old(p.Model()).requests
  {
    p.Out8(0x21, mask);
    data := p.In8(0x21);
    command := p.In8(0x20);
  }

  // ----- The in-service stack -----

  /** Every event keeps the lines in service in strict priority order. */
  lemma StepDescends(c: Controller, e: Event)
    requires Descending(c.inService)
    ensures Descending(Step(c, e).inService)
  {
    forall l: Line { WithoutDescends(c.inService, l); }
    if e.Acked? && Pending(c) {
      forall i | 0 <= i < |c.inService| ensures Lowest(Available(c)) < c.inService[i] {
        assert c.inService[i] in c.inService;
      }
    }
  }

  /** When the line was last acknowledged: an index into the run, or -1. */
  function LastServed(c: Controller, es: seq<Event>, l: Line): int {
    if es == [] then -1
    else if Serves(Run(c, es[..|es| - 1]), es[|es| - 1], l) then |es| - 1
    else LastServed(c, es[..|es| - 1], l)
  }

  lemma {:induction false} LastServedIsPast(c: Controller, es: seq<Event>, l: Line)
    ensures -1 <= LastServed(c, es, l) < |es|
  {
    if es != [] {
      LastServedIsPast(c, es[..|es| - 1], l);
    }
  }

  /** Deeper in the stack means lower priority and acknowledged earlier. */
  ghost predicate Nested(c: Controller, es: seq<Event>, s: seq<Line>) {
    forall i, j | 0 <= i < j < |s| ::
      s[j] < s[i] && LastServed(c, es, s[i]) < LastServed(c, es, s[j])
  }

  lemma {:induction false} WithoutKeepsNesting(c: Controller, es: seq<Event>, s: seq<Line>, l: Line)
    requires Nested(c, es, s)
    ensures Nested(c, es, Without(s, l))
  {
    if s != [] {
      var rest, top := s[..|s| - 1], s[|s| - 1];
      WithoutKeepsNesting(c, es, rest, l);
      var kept := Without(rest, l);
      forall i | 0 <= i < |kept|
        ensures top < kept[i] && LastServed(c, es, kept[i]) < LastServed(c, es, top)
      {
        assert kept[i] in kept;
        var k :| 0 <= k < |rest| && rest[k] == kept[i];
        assert s[k] == kept[i];
      }
    }
  }

  /**
   Over any run from power on, the lines in service form a stack: a newer entry has
   strictly higher priority than every older one and was acknowledged after it.
   */
  lemma {:induction false} ServiceIsNested(es: seq<Event>)
    ensures Nested(POWER_ON, es, Run(POWER_ON, es).inService)
  {
    if es != [] {
      var before, e := es[..|es| - 1], es[|es| - 1];
      var c, c' := Run(POWER_ON, before), Run(POWER_ON, es);
      ServiceIsNested(before);
      forall l: Line { LastServedIsPast(POWER_ON, before, l); }
      if e.Acked? && Pending(c) {
        var line := Lowest(Available(c));
        if !c.autoEoi {
          forall i | 0 <= i < |c.inService| ensures line < c.inService[i] {
            assert c.inService[i] in c.inService;
          }
        } else {
          NewestBeats(c, line);
        }
      } else {
        assert forall l: Line :: LastServed(POWER_ON, es, l) == LastServed(POWER_ON, before, l);
        forall l: Line { WithoutKeepsNesting(POWER_ON, es, c.inService, l); }
      }
    }
  }

  /** A served line was not itself in service. */
  lemma NewestBeats(c: Controller, line: Line)
    requires Pending(c) && line == Lowest(Available(c))
    ensures line !in c.inService
  {
  }

  predicate IsNonSpecificEoi(v: bv8) {
    v & 0x18 == 0 && v & 0x60 == 0x20
  }

  lemma EoiPops(c: Controller, v: bv8)
    requires IsNonSpecificEoi(v) && c.inService != []
    ensures Step(c, Wrote(0x20, v)).inService == c.inService[..|c.inService| - 1]
  {
    assert v & 0x10 == 0;
  }

  lemma PoppedMembers(s: seq<Line>, l: Line)
    requires Descending(s) && s != [] && l == s[|s| - 1]
    ensures forall m: Line :: m in s[..|s| - 1] <==> m in s && m != l
  {
    assert s == s[..|s| - 1] + [l];
  }

  /** In service, acknowledged after every other line in service, and outranking them. */
  ghost predicate Newest(es: seq<Event>, s: seq<Line>, l: Line) {
    l in s && forall m: Line | m in s && m != l ::
      LastServed(POWER_ON, es, m) < LastServed(POWER_ON, es, l) && l < m
  }

  /**
   A non-specific EOI ends exactly the most recently acknowledged line still in
   service, whatever specific EOIs removed from the middle before.
   */
  lemma EoiEndsMostRecent(es: seq<Event>, v: bv8)
    requires IsNonSpecificEoi(v) && Run(POWER_ON, es).inService != []
    ensures
      var s, s' := Run(POWER_ON, es).inService, Run(POWER_ON, es + [Wrote(0x20, v)]).inService;
      exists l: Line :: Newest(es, s, l) && forall m: Line :: m in s' <==> m in s && m != l
  {
    ServiceIsNested(es);
    var s := Run(POWER_ON, es).inService;
    assert Newest(es, s, s[|s| - 1]);
    assert (es + [Wrote(0x20, v)])[..|es|] == es;
    EoiPops(Run(POWER_ON, es), v);
    PoppedMembers(s, s[|s| - 1]);
  }

  /** A specific EOI, 0x60 plus the line, ends exactly that line; 0x20 is the non-specific one. */
  lemma SpecificEoiEnds(c: Controller, l: Line)
    ensures (0x60 | Number(l)) as int == 0x60 + l && IsNonSpecificEoi(0x20)
    ensures forall m: Line :: m in Step(c, Wrote(0x20, 0x60 | Number(l))).inService <==> m in c.inService && m != l
  {
    LinesAreNumbers(l);
    assert (0x60 | Number(l)) & 0x78 == 0x60;
  }

  /** Other bytes at the command port - no ICW1, no EOI - change nothing. */
  lemma OtherCommandsIgnored(c: Controller, v: bv8)
    requires v & 0x10 == 0 && (v & 0x08 != 0 || v & 0x20 == 0)
    ensures Step(c, Wrote(0x20, v)) == c
  {
    assert v & 0x18 == 0 ==> v & 0x60 != 0x20 && v & 0x60 != 0x60;
  }

  /** A mask byte has the weight 2^l for line l: 0xFF less that weight opens line l alone. */
  lemma MaskOpensLine(c: Controller, l: Line)
    requires c.initStep == 0
    ensures (!Mask(l)) as int == 0xFF - Power(l) && Mask(l) as int == Power(l)
    ensures Step(c, Wrote(0x21, !Mask(l))).masked == ALL_LINES - {l}
    ensures Step(c, Wrote(0x21, Mask(l))).masked == {l}
  {
    LinesAreNumbers(l);
    MaskComplement(l);
  }

  lemma MaskComplement(l: Line)
    ensures (!Mask(l)) as int == 0xFF - Power(l) && Lines(!Mask(l)) == ALL_LINES - {l}
  {
    LinesAreNumbers(l);
    AllBits();
    ClearLine(0xFF, l);
    assert 0xFF & !Mask(l) == !Mask(l);
  }

  lemma AllBits()
    ensures Lines(0xFF) == ALL_LINES
  {
    forall l: Line ensures On(0xFF, l) {
    }
  }

  // ----- Conservation of requests -----

  /** The event takes the line's request away. */
  predicate Clears(c: Controller, e: Event, l: Line) {
    Reinitialises(e) || Serves(c, e, l)
  }

  /** Raised at some point of the run and neither acknowledged nor reset since. */
  ghost predicate Outstanding(c: Controller, es: seq<Event>, l: Line) {
    exists i :: 0 <= i < |es| && es[i] == Raised(l) &&
                forall j | i < j < |es| :: !Clears(Run(c, es[..j]), es[j], l)
  }

  lemma StepRequests(c: Controller, e: Event, l: Line)
    ensures l in Step(c, e).requests <==> e == Raised(l) || (l in c.requests && !Clears(c, e, l))
  {
  }

  lemma OutstandingGrows(c: Controller, before: seq<Event>, e: Event, l: Line)
    requires Outstanding(c, before, l) && !Clears(Run(c, before), e, l)
    ensures Outstanding(c, before + [e], l)
  {
    var n, es := |before|, before + [e];
    var i :| 0 <= i < n && before[i] == Raised(l) &&
             forall j | i < j < n :: !Clears(Run(c, before[..j]), before[j], l);
    assert es[i] == Raised(l);
    forall j | i < j <= n ensures !Clears(Run(c, es[..j]), es[j], l) {
      assert es[..j] == before[..j];
      if j == n { assert before[..n] == before; }
    }
  }

  lemma OutstandingShrinks(c: Controller, before: seq<Event>, e: Event, l: Line)
    requires Outstanding(c, before + [e], l) && e != Raised(l)
    ensures Outstanding(c, before, l) && !Clears(Run(c, before), e, l)
  {
    var n, es := |before|, before + [e];
    var i :| 0 <= i < |es| && es[i] == Raised(l) &&
             forall j | i < j < |es| :: !Clears(Run(c, es[..j]), es[j], l);
    assert before[i] == Raised(l);
    assert es[..n] == before && !Clears(Run(c, es[..n]), es[n], l);
    forall j | i < j < n ensures !Clears(Run(c, before[..j]), before[j], l) {
      assert es[..j] == before[..j] && !Clears(Run(c, es[..j]), es[j], l);
    }
  }

  lemma JustRaised(c: Controller, before: seq<Event>, l: Line)
    ensures Outstanding(c, before + [Raised(l)], l)
  {
    var es := before + [Raised(l)];
    assert es[|before|] == Raised(l);
  }

  /** No request is lost or invented: IRR holds exactly the outstanding raises. */
  lemma {:induction false} RequestsAreConserved(c: Controller, es: seq<Event>, l: Line)
    requires l !in c.requests
    ensures l in Run(c, es).requests <==> Outstanding(c, es, l)
  {
    if es != [] {
      var before, e := es[..|es| - 1], es[|es| - 1];
      RequestsAreConserved(c, before, l);
      StepRequests(Run(c, before), e, l);
      assert es == before + [e];
      if e == Raised(l) {
        JustRaised(c, before, l);
      } else {
        if Outstanding(c, es, l) { OutstandingShrinks(c, before, e, l); }
        if l in Run(c, es).requests { OutstandingGrows(c, before, e, l); }
      }
    }
  }

  // ----- Draining -----

  const NON_SPECIFIC_EOI: bv8 := 0x20

  /** One acknowledge cycle and the handler's EOI. */
  function Serve(c: Controller): Controller {
    EndOfInterrupt(Acknowledge(c), NON_SPECIFIC_EOI)
  }

  lemma ServeShrinks(c: Controller)
    requires c.inService == [] && Pending(c)
    ensures Serve(c) == c.(requests := c.requests - {Lowest(Available(c))})
    ensures Available(Serve(c)) == Available(c) - {Lowest(Available(c))}
    ensures |Available(Serve(c))| < |Available(c)|
  {
  }

  /** The vectors seen by a CPU that serves every interrupt to its end. */
  function Drain(c: Controller): (seq<bv8>, Controller)
    requires c.inService == []
    decreases |Available(c)|
  {
    if !Pending(c) then ([], c)
    else
      ServeShrinks(c);
      var (rest, end) := Drain(Serve(c));
      ([Vector(c)] + rest, end)
  }

  ghost predicate Ascending(ls: seq<Line>) {
    forall i, j | 0 <= i < j < |ls| :: ls[i] < ls[j]
  }

  lemma NothingPending(c: Controller)
    requires c.inService == [] && !Pending(c)
    ensures forall l: Line :: !(l in c.requests && l !in c.masked)
    ensures c.requests * c.masked == c.requests
  {
    forall l: Line ensures !(l in c.requests && l !in c.masked) {
      assert l !in Available(c);
    }
  }

  /** The vectors `base + line` of some lines. */
  ghost function VectorsOf(base: VectorBase, ls: seq<Line>): seq<bv8> {
    seq(|ls|, i requires 0 <= i < |ls| => base + Number(ls[i]))
  }

  lemma VectorsAreNumbers(base: VectorBase, ls: seq<Line>)
    ensures forall i | 0 <= i < |ls| :: VectorsOf(base, ls)[i] as int == base as int + ls[i]
  {
    forall i | 0 <= i < |ls| ensures VectorsOf(base, ls)[i] as int == base as int + ls[i] {
      VectorNumber(base, ls[i]);
    }
  }

  function InOrder(s: set<Line>): seq<Line> {
    if s == {} then [] else [Lowest(s)] + InOrder(s - {Lowest(s)})
  }

  lemma {:induction false} InOrderAscends(s: set<Line>)
    ensures Ascending(InOrder(s))
    ensures forall l: Line :: l in InOrder(s) <==> l in s
  {
    if s != {} {
      var rest := s - {Lowest(s)};
      InOrderAscends(rest);
      forall i | 0 <= i < |InOrder(rest)| ensures Lowest(s) < InOrder(rest)[i] {
        assert InOrder(rest)[i] in InOrder(rest);
      }
    }
  }

  lemma DrainStep(c: Controller)
    requires c.inService == [] && Pending(c)
    ensures Serve(c).inService == []
    ensures Drain(c) == ([Vector(c)] + Drain(Serve(c)).0, Drain(Serve(c)).1)
  {
    ServeShrinks(c);
  }

  lemma VectorsCons(base: VectorBase, l: Line, ls: seq<Line>)
    ensures VectorsOf(base, [l] + ls) == [base + Number(l)] + VectorsOf(base, ls)
  {
  }

  /** Draining delivers the vectors of the available lines and leaves the masked requests. */
  lemma {:induction false} DrainInOrder(c: Controller)
    requires c.inService == []
    ensures Drain(c).0 == VectorsOf(c.base, InOrder(Available(c)))
    ensures Drain(c).1 == c.(requests := c.requests * c.masked)
    decreases |Available(c)|
  {
    if !Pending(c) {
      NothingPending(c);
    } else {
      var line, served := Lowest(Available(c)), Serve(c);
      ServeShrinks(c);
      DrainInOrder(served);
      DrainStep(c);
      VectorsCons(c.base, line, InOrder(Available(served)));
      assert served.requests * c.masked == c.requests * c.masked;
    }
  }

  /** The lines are the unmasked requests, once each in ascending order, and the vectors are theirs. */
  ghost predicate ServesInOrder(c: Controller, ls: seq<Line>, vectors: seq<bv8>) {
    && Ascending(ls) && (forall l: Line :: l in ls <==> l in c.requests && l !in c.masked)
    && |vectors| == |ls| && forall i | 0 <= i < |ls| :: vectors[i] as int == c.base as int + ls[i]
  }

  /**
   Draining delivers `base + line` for exactly the unmasked requested lines, each
   once and in ascending order, and leaves only the masked requests.
   */
  lemma DrainServesAll(c: Controller)
    requires c.inService == []
    ensures exists ls: seq<Line> :: ServesInOrder(c, ls, Drain(c).0)
    ensures Drain(c).1 == c.(requests := c.requests * c.masked)
  {
    var ls := InOrder(Available(c));
    DrainInOrder(c);
    InOrderAscends(Available(c));
    assert Available(c) == c.requests - c.masked;
    VectorsAreNumbers(c.base, ls);
    assert ServesInOrder(c, ls, VectorsOf(c.base, ls));
  }
}
