/**
 The 8253 interval timer: three 16-bit down-counters with reload, read and written
 a byte at a time. Counter 0 raises IRQ0, counter 1 drives the DRAM refresh.
 */
module Pit {
  import opened Bytes
  import Dma
  import Pic

  datatype CounterState = CounterState(
    reload: Word,     // 0 means 65536
    count: Word,
    mode: Byte,
    access: Byte,     // 1: low byte only, 2: high byte only, 3: low then high
    writeHi: bool,
    readHi: bool,
    latched: bool,
    latch: Word,
    running: bool)

  const IDLE := CounterState(0, 0, 0, 0, false, false, false, 0, false)

  // ----- Counting down -----

  function Period(s: CounterState): (p: int)
    ensures 0 < p <= 0x1_0000
  {
    if s.reload == 0 then 0x1_0000 else s.reload
  }

  /** Clocks left before the next terminal count; a zero count stands for a period. */
  function Left(s: CounterState): (n: int)
    ensures 0 < n <= 0x1_0000
  {
    if s.count == 0 then Period(s) else s.count
  }

  /** How many terminal counts happen within `n` clocks. */
  function Pulses(s: CounterState, n: int): (p: int)
    ensures 0 <= p
  {
    if !s.running || n < Left(s) then 0 else 1 + (n - Left(s)) / Period(s)
  }

  /** Clocks left after `n` clocks, in 1..65536. */
  function LeftAfter(s: CounterState, n: int): int {
    if n < Left(s) then Left(s) - n else Period(s) - (n - Left(s)) % Period(s)
  }

  /** The counter after `n` clocks; 65536 is stored as zero. */
  function Ticked(s: CounterState, n: int): CounterState {
    if !s.running || n <= 0 then s else s.(count := ToWord(LeftAfter(s, n)))
  }

  /** Storing 65536 as zero loses nothing: the next tick reads it back. */
  lemma TickedLeft(s: CounterState, n: int)
    requires s.running && 0 < n
    ensures 0 < LeftAfter(s, n) <= 0x1_0000
    ensures Left(Ticked(s, n)) == LeftAfter(s, n)
  {
  }

  /** Pulses and rest are the only pair that balances the clocks. */
  lemma CountdownIs(s: CounterState, n: int, pulses: int, left: int)
    requires s.running && 0 <= n && 0 <= pulses
    requires left == Left(s) - n + pulses * Period(s)
    requires 0 < left && (0 < pulses ==> left <= Period(s))
    ensures pulses == Pulses(s, n) && left == LeftAfter(s, n)
  {
    if pulses == 0 {
    } else {
      Multiple(pulses - 1, Period(s));
      MultiplyLess(0, pulses - 1, Period(s));
      QuotientIs(n - Left(s), Period(s), pulses - 1, Period(s) - left);
    }
  }

  lemma Balance(s: CounterState, n: int)
    requires s.running && 0 <= n
    ensures LeftAfter(s, n) == Left(s) - n + Pulses(s, n) * Period(s)
    ensures 0 < LeftAfter(s, n) && (0 < Pulses(s, n) ==> LeftAfter(s, n) <= Period(s))
  {
    if Left(s) <= n {
      var d, p := n - Left(s), Period(s);
      assert d == d / p * p + d % p;
      Multiple(d / p, p);
    }
  }

  /** Ticking is additive: count and pulses do not depend on how the time is cut. */
  lemma TickAdds(s: CounterState, a: int, b: int)
    requires 0 <= a && 0 <= b
    ensures Ticked(Ticked(s, a), b) == Ticked(s, a + b)
    ensures Pulses(s, a) + Pulses(Ticked(s, a), b) == Pulses(s, a + b)
  {
    if s.running && 0 < a && 0 < b {
      var mid := Ticked(s, a);
      TickedLeft(s, a);
      Balance(s, a);
      Balance(mid, b);
      var p, q := Pulses(s, a), Pulses(mid, b);
      assert (p + q) * Period(s) == p * Period(s) + q * Period(s);
      CountdownIs(s, a + b, p + q, LeftAfter(mid, b));
    }
  }

  /** One clock: the counter steps down and reloads on terminal count. */
  function Clock(s: CounterState): (CounterState, int) {
    if !s.running then (s, 0)
    else if Left(s) == 1 then (s.(count := s.reload), 1)
    else (s.(count := Left(s) - 1), 0)
  }

  function Clocks(s: CounterState, n: nat): (CounterState, int) {
    if n == 0 then (s, 0)
    else
      var (s1, p) := Clocks(s, n - 1);
      var (s2, q) := Clock(s1);
      (s2, p + q)
  }

  /** Ticking `n` clocks at once is `n` single clocks. */
  lemma {:induction false} TickIsClocks(s: CounterState, n: nat)
    ensures Clocks(s, n) == (Ticked(s, n), Pulses(s, n))
  {
    if n != 0 {
      TickIsClocks(s, n - 1);
      var s1 := Ticked(s, n - 1);
      TickAdds(s, n - 1, 1);
      if s1.running {
        OneClock(s1);
      }
    }
  }

  lemma OneClock(s: CounterState)
    requires s.running
    ensures Clock(s) == (Ticked(s, 1), Pulses(s, 1))
  {
    if Left(s) == 1 {
      QuotientIs(0, Period(s), 0, 0);
    }
  }

  // ----- Byte-wise access -----

  function Loaded(s: CounterState): CounterState {
    s.(count := s.reload, running := true)
  }

  function WriteCount(s: CounterState, v: Byte): CounterState {
    if s.access == 1 then Loaded(s.(reload := v))
    else if s.access == 2 then Loaded(s.(reload := v * 0x100))
    else if !s.writeHi then s.(reload := Join(v, High(s.reload)), writeHi := true)
    else Loaded(s.(reload := Join(Low(s.reload), v), writeHi := false))
  }

  function ReadCount(s: CounterState): (CounterState, Byte) {
    var w := if s.latched then s.latch else s.count;
    if s.access == 1 then (s.(latched := false), Low(w))
    else if s.access == 2 then (s.(latched := false), High(w))
    else if !s.readHi then (s.(readHi := true), Low(w))
    else (s.(readHi := false, latched := false), High(w))
  }

  /** The control word as seen by the counter it selects. */
  function Control(s: CounterState, v: Byte): CounterState {
    var access := v / 0x10 % 4;
    if access == 0 then s.(latch := s.count, latched := true)
    else s.(access := access, mode := v / 2 % 8, writeHi := false, readHi := false, running := false)
  }

  function Selected(v: Byte): int {
    v / 0x40
  }

  /** Control word 3, low byte, high byte: the counter runs from the given value. */
  lemma ProgramsCounter(s: CounterState, control: Byte, w: Word)
    requires control / 0x10 % 4 == 3
    ensures var p := WriteCount(WriteCount(Control(s, control), Low(w)), High(w));
            p.running && p.reload == w && p.count == w && !p.writeHi && !p.readHi
  {
    JoinParts(Low(w), High(s.reload));
    JoinHalves(w);
  }

  /** The counter is read low half first; this is also how it starts, before any control word. */
  predicate BothHalves(s: CounterState) {
    s.access != 1 && s.access != 2
  }

  /**
   A latched count survives any time that passes before and between the two reads,
   and the counter runs on underneath.
   */
  lemma LatchFreezes(s: CounterState, control: Byte, n: nat, m: nat)
    requires control / 0x10 % 4 == 0 && BothHalves(s) && !s.readHi
    ensures var held := Ticked(Control(s, control), n);
            var (s1, lo) := ReadCount(held);
            var (s2, hi) := ReadCount(Ticked(s1, m));
            && Join(lo, hi) == s.count
            && s2 == Ticked(s, n + m).(latch := s.count, latched := false)
  {
    var held := Control(s, control);
    TickFrame(s, n, false, true, s.count);
    var s1 := Ticked(s, n);
    TickFrame(s1, m, true, true, s.count);
    TickAdds(s, n, m);
    assert ReadCount(Ticked(held, n)).0 == s1.(readHi := true, latched := true, latch := s.count);
  }

  /**
   Latched between the two reads of a counter, the high half comes out alone and releases
   the latch: the next byte is the low half of the running count.
   */
  lemma LatchMidRead(s: CounterState, control: Byte, n: nat)
    requires control / 0x10 % 4 == 0 && BothHalves(s) && s.readHi
    ensures var (s1, b) := ReadCount(Control(s, control));
            && b == High(s.count) && !s1.latched
            && ReadCount(Ticked(s1, n)).1 == Low(Ticked(s, n).count)
  {
    TickFrame(s, n, false, false, s.count);
  }

  /** The word made of two reads after a latch command, with clocks before and between them. */
  function LatchedWord(s: CounterState, control: Byte, n: nat, m: nat): Word {
    var (s1, lo) := ReadCount(Ticked(Control(s, control), n));
    var (_, hi) := ReadCount(Ticked(s1, m));
    Join(lo, hi)
  }

  lemma LatchedWordMidRead(s: CounterState, control: Byte, n: nat, m: nat)
    requires control / 0x10 % 4 == 0 && BothHalves(s) && s.readHi
    ensures LatchedWord(s, control, n, m) == Join(High(s.count), Low(Ticked(s, n + m).count))
  {
    TickFrame(s, n, true, true, s.count);
    var s1 := Ticked(s, n);
    TickFrame(s1, m, false, false, s.count);
    TickAdds(s, n, m);
    assert ReadCount(Ticked(Control(s, control), n)).0 == s1.(readHi := false, latched := false, latch := s.count);
  }

  /** A running counter whose halves are equal shows another low half after one or two clocks. */
  lemma LowHalfMoves(s: CounterState)
    requires s.running && High(s.count) == Low(s.count)
    ensures Low(Ticked(s, 1).count) != Low(s.count) || Low(Ticked(s, 2).count) != Low(s.count)
  {
    var s1 := Ticked(s, 1);
    OneClock(s);
    OneClock(s1);
    TickAdds(s, 1, 1);
  }

  /**
   The latch guarantee, exactly: two reads after a latch command rebuild the latched count
   whatever time passes, iff the command did not come between two reads of the counter, or
   the counter stands still on a count with equal halves.
   */
  lemma LatchReadsBackIff(s: CounterState, control: Byte)
    requires control / 0x10 % 4 == 0 && BothHalves(s)
    ensures (forall n: nat, m: nat :: LatchedWord(s, control, n, m) == s.count)
            <==> !s.readHi || (!s.running && High(s.count) == Low(s.count))
  {
    if !s.readHi {
      forall n: nat, m: nat ensures LatchedWord(s, control, n, m) == s.count {
        LatchFreezes(s, control, n, m);
      }
    } else {
      forall n: nat, m: nat
        ensures LatchedWord(s, control, n, m) == s.count <==>
                High(s.count) == Low(s.count) == Low(Ticked(s, n + m).count)
      {
        LatchedWordMidRead(s, control, n, m);
        JoinHalves(s.count);
        JoinParts(High(s.count), Low(Ticked(s, n + m).count));
      }
      if s.running && High(s.count) == Low(s.count) {
        LowHalfMoves(s);
        assert LatchedWord(s, control, 0, 1) != s.count || LatchedWord(s, control, 0, 2) != s.count;
      } else if High(s.count) != Low(s.count) {
        assert LatchedWord(s, control, 0, 0) != s.count;
      }
    }
  }

  /** A counter read by one half only returns that half of the latched count, and releases it. */
  lemma LatchedHalf(s: CounterState, control: Byte, n: nat)
    requires control / 0x10 % 4 == 0 && !BothHalves(s)
    ensures ReadCount(Ticked(Control(s, control), n)) ==
            (Ticked(s, n).(latch := s.count, latched := false), if s.access == 1 then Low(s.count) else High(s.count))
  {
    TickFrame(s, n, s.readHi, true, s.count);
  }

  /** Ticking neither reads nor moves the latch and the read flip-flop. */
  lemma TickFrame(s: CounterState, n: int, h: bool, d: bool, l: Word)
    ensures Ticked(s.(readHi := h, latched := d, latch := l), n) ==
            Ticked(s, n).(readHi := h, latched := d, latch := l)
    ensures Ticked(s, n) == s.(count := Ticked(s, n).count)
  {
    var s' := s.(readHi := h, latched := d, latch := l);
    assert Left(s') == Left(s) && Period(s') == Period(s);
  }

  // ----- The chip -----

  class Counter {
    var reload: Word
    var count: Word
    var mode: Byte
    var access: Byte
    var writeHi: bool
    var readHi: bool
    var latched: bool
    var latch: Word
    var running: bool

    ghost function State(): CounterState
      reads this
    {
      CounterState(reload, count, mode, access, writeHi, readHi, latched, latch, running)
    }

    constructor ()
      ensures State() == IDLE
    {
      reload, count, mode, access, latch := 0, 0, 0, 0, 0;
      writeHi, readHi, latched, running := false, false, false, false;
    }

    method Tick(n: int) returns (pulses: int)
      modifies this
      ensures State() == Ticked(old(State()), n)
      ensures pulses == Pulses(old(State()), n)
    {
      if !running || n <= 0 {
        return 0;
      }
      var period: int := reload;
      if period == 0 {
        period := 0x1_0000;
      }
      var cur: int := count;
      if cur == 0 {
        cur := period;
      }
      cur := cur - n;
      pulses := 0;
      ghost var s := State();
      assert period == Period(s);
      while cur <= 0
        invariant 0 <= pulses && cur == Left(s) - n + pulses * Period(s)
        invariant 0 < pulses ==> cur <= period
        invariant State() == s
        decreases -cur
      {
        Multiple(pulses, Period(s));
        pulses := pulses + 1;
        cur := cur + period;
      }
      CountdownIs(s, n, pulses, cur);
      assert Ticked(s, n) == s.(count := ToWord(cur));
      count := cur % 0x1_0000;
    }

    method Load()
      modifies this
      ensures State() == Loaded(old(State()))
    {
      count := reload;
      running := true;
    }

    method Write(value: Byte)
      modifies this
      ensures State() == WriteCount(old(State()), value)
    {
      if access == 1 {
        reload := value;
        Load();
      } else if access == 2 {
        reload := value * 0x100;
        Load();
      } else if !writeHi {
        reload := Join(value, High(reload));
        writeHi := true;
      } else {
        reload := Join(Low(reload), value);
        writeHi := false;
        Load();
      }
    }

    method Read() returns (b: Byte)
      modifies this
      ensures (State(), b) == ReadCount(old(State()))
    {
      var val := count;
      if latched {
        val := latch;
      }
      if access == 1 {
        latched := false;
        b := Low(val);
      } else if access == 2 {
        latched := false;
        b := High(val);
      } else if !readHi {
        readHi := true;
        b := Low(val);
      } else {
        readHi := false;
        latched := false;
        b := High(val);
      }
    }

    method Configure(v: Byte)
      modifies this
      ensures State() == Control(old(State()), v)
    {
      var acc := v / 0x10 % 4;
      if acc == 0 {
        latch := count;
        latched := true;
        return;
      }
      access := acc;
      mode := v / 2 % 8;
      writeHi, readHi, running := false, false, false;
    }
  }

  datatype Timer = Timer(c0: CounterState, c1: CounterState, c2: CounterState)

  function TimerTicked(t: Timer, n: int): Timer {
    Timer(Ticked(t.c0, n), Ticked(t.c1, n), Ticked(t.c2, n))
  }

  /** Applies a change to the counter behind a port or selector in 0..2. */
  function At(t: Timer, i: int): CounterState
    requires 0 <= i < 3
  {
    if i == 0 then t.c0 else if i == 1 then t.c1 else t.c2
  }

  function With(t: Timer, i: int, s: CounterState): Timer
    requires 0 <= i < 3
  {
    if i == 0 then t.(c0 := s) else if i == 1 then t.(c1 := s) else t.(c2 := s)
  }

  function OutPort(t: Timer, port: Word, v: Byte): Timer {
    var i := port % 4;
    if i == 3 then
      if Selected(v) == 3 then t else With(t, Selected(v), Control(At(t, Selected(v)), v))
    else With(t, i, WriteCount(At(t, i), v))
  }

  function InPort(t: Timer, port: Word): (Timer, Byte) {
    var i := port % 4;
    if i == 3 then (t, 0xFF)
    else
      var (s, b) := ReadCount(At(t, i));
      (With(t, i, s), b)
  }

  /** A control word: counter, access and the four low bits for mode and BCD. */
  function ControlWord(i: int, access: int, low: int): Byte
    requires 0 <= i < 3 && 0 <= access < 4 && 0 <= low < 0x10
  {
    0x40 * i + 0x10 * access + low
  }

  /** The timer after a control word and the bytes of a count, at the counter's port. */
  function Programmed(t: Timer, i: int, access: int, low: int, bytes: seq<Byte>): Timer
    requires 0 <= i < 3 && 0 <= access < 4 && 0 <= low < 0x10
  {
    if bytes == [] then OutPort(t, 0x43, ControlWord(i, access, low))
    else OutPort(Programmed(t, i, access, low, bytes[..|bytes| - 1]), 0x40 + i, bytes[|bytes| - 1])
  }

  lemma ControlWordFields(i: int, access: int, low: int)
    requires 0 <= i < 3 && 0 <= access < 4 && 0 <= low < 0x10
    ensures var v := ControlWord(i, access, low);
            Selected(v) == i && v / 0x10 % 4 == access && v / 2 % 8 == low / 2
  {
    var v := ControlWord(i, access, low);
    QuotientIs(v, 0x40, i, 0x10 * access + low);
    QuotientIs(v, 0x10, 4 * i + access, low);
    QuotientIs(4 * i + access, 4, i, access);
    QuotientIs(v, 2, 0x20 * i + 8 * access + low / 2, low % 2);
    QuotientIs(0x20 * i + 8 * access + low / 2, 8, 4 * i + access, low / 2);
  }

  /** A control word with access 1 to 3 stops its counter and sets its mode. */
  lemma ControlPort(t: Timer, i: int, access: int, low: int)
    requires 0 <= i < 3 && 1 <= access < 4 && 0 <= low < 0x10
    ensures Programmed(t, i, access, low, []) ==
            With(t, i, At(t, i).(access := access, mode := low / 2, writeHi := false, readHi := false,
                                 running := false))
  {
    ControlWordFields(i, access, low);
  }

  lemma DataPort(t: Timer, i: int, v: Byte)
    requires 0 <= i < 3
    ensures OutPort(t, 0x40 + i, v) == With(t, i, WriteCount(At(t, i), v))
  {
    assert (0x40 + i) % 4 == i;
  }

  lemma OneByte(t: Timer, i: int, access: int, low: int, v: Byte)
    requires 0 <= i < 3 && 1 <= access < 4 && 0 <= low < 0x10
    ensures Programmed(t, i, access, low, [v]) ==
            With(t, i, WriteCount(At(Programmed(t, i, access, low, []), i), v))
  {
    assert [v][..0] == [];
    ControlPort(t, i, access, low);
    DataPort(Programmed(t, i, access, low, []), i, v);
  }

  lemma TwoBytes(t: Timer, i: int, low: int, lo: Byte, hi: Byte)
    requires 0 <= i < 3 && 0 <= low < 0x10
    ensures Programmed(t, i, 3, low, [lo, hi]) ==
            With(t, i, WriteCount(At(Programmed(t, i, 3, low, [lo]), i), hi))
  {
    assert [lo, hi][..1] == [lo];
    OneByte(t, i, 3, low, lo);
    DataPort(Programmed(t, i, 3, low, [lo]), i, hi);
  }

  /** Counter `i` runs from `w` in the mode of the control word, and the others are as before. */
  ghost predicate RunsFrom(t: Timer, t': Timer, i: int, w: int, low: int)
    requires 0 <= i < 3
  {
    && At(t', i).running && At(t', i).reload == w && At(t', i).count == w && At(t', i).mode == low / 2
    && forall k | 0 <= k < 3 && k != i :: At(t', k) == At(t, k)
  }

  /**
   Programming through the ports starts one counter and no other: with a low byte (access
   1), a high byte (access 2), or a low and then a high byte (access 3).
   */
  lemma ProgramsThroughPorts(t: Timer, i: int, low: int, lo: Byte, hi: Byte)
    requires 0 <= i < 3 && 0 <= low < 0x10
    ensures RunsFrom(t, Programmed(t, i, 1, low, [lo]), i, lo, low)
    ensures RunsFrom(t, Programmed(t, i, 2, low, [hi]), i, 0x100 * hi, low)
    ensures RunsFrom(t, Programmed(t, i, 3, low, [lo, hi]), i, lo + 0x100 * hi, low)
    ensures !At(Programmed(t, i, 3, low, [lo]), i).running
  {
    ControlPort(t, i, 1, low);
    OneByte(t, i, 1, low, lo);
    ControlPort(t, i, 2, low);
    OneByte(t, i, 2, low, hi);
    ControlPort(t, i, 3, low);
    OneByte(t, i, 3, low, lo);
    TwoBytes(t, i, low, lo, hi);
    JoinParts(lo, High(At(t, i).reload));
  }

  /**
   From then on the counter reaches its terminal count once in every period of as many
   clocks as were programmed, 65536 for zero.
   */
  lemma FiresEveryPeriod(t: Timer, t': Timer, i: int, w: Word, low: int, n: nat)
    requires 0 <= i < 3 && RunsFrom(t, t', i, w, low)
    ensures Pulses(At(t', i), n) == n / (if w == 0 then 0x1_0000 else w)
  {
    var p := if w == 0 then 0x1_0000 else w as int;
    if n < p {
      QuotientIs(n, p, 0, n);
    } else {
      var d := n - p;
      assert d == d / p * p + d % p;
      Multiple(d / p, p);
      QuotientIs(n, p, 1 + d / p, d % p);
    }
  }

  /** A control word with access 0 latches the count of its counter and changes nothing else. */
  lemma LatchesThroughPorts(t: Timer, i: int, low: int)
    requires 0 <= i < 3 && 0 <= low < 0x10
    ensures var s := At(t, i);
            OutPort(t, 0x43, ControlWord(i, 0, low)) == With(t, i, s.(latch := s.count, latched := true))
  {
    ControlWordFields(i, 0, low);
  }

  /** The control port reads as 0xFF, and a control word for counter 3 changes nothing. */
  lemma ControlPortOnly(t: Timer, v: Byte)
    ensures InPort(t, 0x43) == (t, 0xFF) && (0xC0 <= v ==> OutPort(t, 0x43, v) == t)
  {
  }

  /**
   Reads through a counter's port without a latch: the low half, then the high half of the
   count as it is then, in access 3; one half in access 1 and 2. Nothing else changes.
   */
  lemma ReadsThroughPorts(t: Timer, i: int, m: nat)
    requires 0 <= i < 3 && !At(t, i).latched
    ensures var s := At(t, i);
            && (s.access == 1 ==> InPort(t, 0x40 + i) == (t, s.count % 0x100))
            && (s.access == 2 ==> InPort(t, 0x40 + i) == (t, s.count / 0x100))
            && (s.access == 3 && !s.readHi ==>
                  var (t1, lo) := InPort(t, 0x40 + i);
                  var (t2, hi) := InPort(TimerTicked(t1, m), 0x40 + i);
                  lo == s.count % 0x100 && hi == Ticked(s, m).count / 0x100 && t2 == TimerTicked(t, m))
  {
    assert (0x40 + i) % 4 == i;
    var s := At(t, i);
    TickFrame(s, m, true, false, s.latch);
    assert s == s.(readHi := s.readHi, latched := false, latch := s.latch);
  }

  class PIT {
    const counter0: Counter
    const counter1: Counter
    const counter2: Counter
    const irq0: Pic.PIC      // where the output of counter 0 goes
    const refresh: Dma.DMA   // where the output of counter 1 goes

    ghost predicate Valid()
      reads irq0
    {
      && counter0 != counter1 && counter0 != counter2 && counter1 != counter2
      && irq0.Valid()
    }

    ghost function State(): Timer
      reads counter0, counter1, counter2
    {
      Timer(counter0.State(), counter1.State(), counter2.State())
    }

    constructor (irq0: Pic.PIC, refresh: Dma.DMA)
      requires irq0.Valid()
      ensures Valid() && fresh(counter0) && fresh(counter1) && fresh(counter2)
      ensures State() == Timer(IDLE, IDLE, IDLE)
      ensures this.irq0 == irq0 && this.refresh == refresh
    {
      counter0 := new Counter();
      counter1 := new Counter();
      counter2 := new Counter();
      this.irq0, this.refresh := irq0, refresh;
    }

    /** IRQ0 is raised once per call, however many terminal counts there were. */
    method Tick(cycles: int)
      requires Valid()
      modifies counter0, counter1, counter2, irq0, refresh
      ensures Valid() && State() == TimerTicked(old(State()), cycles)
      ensures irq0.Model() == if 0 < Pulses(old(State()).c0, cycles)
                              then Pic.Raise(old(irq0.Model()), 0) else old(irq0.Model())
      ensures irq0.raised == old(irq0.raised) + if 0 < Pulses(old(State()).c0, cycles) then [0] else []
      ensures refresh.State() == Dma.Refreshed(old(refresh.State()), Pulses(old(State()).c1, cycles))
    {
      var fired := counter0.Tick(cycles);
      if fired > 0 {
        irq0.RaiseIRQ(0);
      }
      var p := counter1.Tick(cycles);
      Refresh(p);
      var _ := counter2.Tick(cycles);
    }

    method Refresh(p: nat)
      modifies refresh
      ensures refresh.State() == Dma.Refreshed(old(refresh.State()), p)
    {
      Dma.RefreshNone(refresh.State());
      for i := 0 to p
        invariant refresh.State() == Dma.Refreshed(old(refresh.State()), i)
      {
        refresh.RefreshCycle();
        Dma.RefreshSnoc(old(refresh.State()), i);
      }
    }

    method Out8(port: Word, value: Byte)
      requires Valid()
      modifies counter0, counter1, counter2
      ensures State() == OutPort(old(State()), port, value)
    {
      if port % 4 == 3 {
        ControlWord(value);
        return;
      }
      var c := Select(port % 4);
      c.Write(value);
    }

    method ControlWord(v: Byte)
      requires Valid()
      modifies counter0, counter1, counter2
      ensures State() == OutPort(old(State()), 3, v)
    {
      var sel := v / 0x40;
      if sel == 3 {
        return;
      }
      var c := Select(sel);
      c.Configure(v);
    }

    method In8(port: Word) returns (b: Byte)
      requires Valid()
      modifies counter0, counter1, counter2
      ensures (State(), b) == InPort(old(State()), port)
    {
      if port % 4 == 3 {
        return 0xFF;
      }
      var c := Select(port % 4);
      b := c.Read();
    }

    method Select(i: int) returns (c: Counter)
      requires 0 <= i < 3
      ensures c == if i == 0 then counter0 else if i == 1 then counter1 else counter2
    {
      if i == 0 {
        c := counter0;
      } else if i == 1 {
        c := counter1;
      } else {
        c := counter2;
      }
    }
  }
}
