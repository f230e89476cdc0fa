/**
 The command machine of the NEC 765 floppy controller: a command byte and its
 parameters are collected, the command runs, and result bytes are read back.
 */
module FdcControl {
  import opened Bytes

  type Drives = s: seq<Byte> | |s| == 4 witness [0, 0, 0, 0]

  datatype Control = Control(
    dor: Byte,
    phase: int,         // 0 idle, 1 collecting, 2 results
    cmd: seq<Byte>,
    needed: int,
    result: seq<Byte>,
    resIdx: int,
    pcn: Drives,        // present cylinder of each drive
    st0: Byte,
    intPending: bool)

  const POWER_ON := Control(0, 0, [], 0, [], 0, [0, 0, 0, 0], 0, false)

  /** What the data phase of a command did: no disk, or sectors moved and a failure. */
  datatype Outcome = NoDisk | Ran(sectors: nat, failed: bool)

  /** Parameter bytes that follow a command byte. */
  function ParamCount(cmd: Byte): int {
    match cmd % 0x20
    case 0x05 => 8
    case 0x06 => 8
    case 0x09 => 8
    case 0x0C => 8
    case 0x0D => 5
    case 0x0F => 2
    case 0x03 => 2
    case 0x07 => 1
    case 0x04 => 1
    case 0x0A => 1
    case _ => 0
  }

  predicate IsData(cmd: Byte) {
    cmd % 0x20 == 0x05 || cmd % 0x20 == 0x06
  }

  /** The low two bits of the first parameter select the drive, bit 2 the head. */
  function Drive(cmd: seq<Byte>): int
    requires 2 <= |cmd|
  {
    cmd[1] % 4
  }

  function Head(cmd: seq<Byte>): int
    requires 2 <= |cmd|
  {
    cmd[1] / 4 % 2
  }

  function GiveResult(c: Control, res: seq<Byte>): Control {
    c.(result := res, resIdx := 0, phase := 2)
  }

  function SeekDone(c: Control, drive: int): Control
    requires 0 <= drive < 4
  {
    c.(st0 := 0x20 + drive, intPending := true, phase := 0)
  }

  function SenseInterrupt(c: Control): Control {
    if c.intPending then GiveResult(c.(intPending := false), [c.st0, c.pcn[c.st0 % 4]])
    else GiveResult(c, [0x80])
  }

  function SenseDrive(c: Control): Control
    requires 2 <= |c.cmd|
  {
    var drive := Drive(c.cmd);
    GiveResult(c, [drive + 0x20 + if c.pcn[drive] == 0 then 0x10 else 0])
  }

  function ReadId(c: Control): Control
    requires 2 <= |c.cmd|
  {
    var drive, head := Drive(c.cmd), Head(c.cmd);
    var st0 := drive + 4 * head;
    GiveResult(c.(st0 := st0, intPending := true), [st0, 0, 0, c.pcn[drive], head, 1, 2])
  }

  predicate Abnormal(o: Outcome) {
    o.NoDisk? || o.failed
  }

  /** The sector number reported: the one after the last sector moved. */
  function NextSector(r: Byte, o: Outcome): Byte {
    match o
    case NoDisk => r
    case Ran(k, _) => Low(r + Max(1, k))
  }

  /** The end of Read Data or Write Data. */
  function DataDone(c: Control, o: Outcome): Control
    requires 7 <= |c.cmd|
  {
    var drive := Drive(c.cmd);
    var st0 := drive + 4 * Head(c.cmd) + if Abnormal(o) then 0x40 else 0;
    var st1 := if Abnormal(o) then 0x04 else 0;
    GiveResult(c.(st0 := st0, pcn := c.pcn[drive := c.cmd[2]], intPending := true),
               [st0, st1, 0, c.cmd[2], c.cmd[3], NextSector(c.cmd[4], o), c.cmd[5]])
  }

  predicate Complete(c: Control) {
    c.cmd != [] && |c.cmd| == 1 + ParamCount(c.cmd[0])
  }

  /** Runs the collected command. */
  function Execute(c: Control, o: Outcome): Control
    requires Complete(c)
  {
    match c.cmd[0] % 0x20
    case 0x03 => c.(phase := 0)
    case 0x07 => SeekDone(c.(pcn := c.pcn[Drive(c.cmd) := 0]), Drive(c.cmd))
    case 0x0F => SeekDone(c.(pcn := c.pcn[Drive(c.cmd) := c.cmd[2]]), Drive(c.cmd))
    case 0x08 => SenseInterrupt(c)
    case 0x04 => SenseDrive(c)
    case 0x0A => ReadId(c)
    case 0x06 => DataDone(c, o)
    case 0x05 => DataDone(c, o)
    case _ => GiveResult(c, [0x80])
  }

  /** The commands that raise IRQ6 when they finish, if the DOR enables it. */
  predicate Interrupts(cmd: Byte) {
    cmd % 0x20 in {0x05, 0x06, 0x07, 0x0A, 0x0F}
  }

  predicate IrqEnabled(c: Control) {
    Bit(c.dor, 0x08)
  }

  // ----- Port accesses -----

  /** Invariant of the command machine. */
  ghost predicate Sound(c: Control) {
    || c.phase == 0
    || (c.phase == 1 && c.cmd != [] && c.needed == 1 + ParamCount(c.cmd[0]) && |c.cmd| < c.needed)
    || (c.phase == 2 && 0 <= c.resIdx < |c.result|)
  }

  /** The command buffer after a byte was written to the data port. */
  function Collected(c: Control, v: Byte): Control {
    if c.phase == 0 then c.(cmd := [v], needed := 1 + ParamCount(v), phase := 1)
    else if c.phase == 1 then c.(cmd := c.cmd + [v])
    else c
  }

  predicate Executes(c: Control, v: Byte) {
    var c' := Collected(c, v);
    c'.phase == 1 && c'.needed <= |c'.cmd|
  }

  function WriteData(c: Control, v: Byte, o: Outcome): Control
    requires Sound(c)
  {
    if Executes(c, v) then Execute(Collected(c, v), o) else Collected(c, v)
  }

  function ReadData(c: Control): (Control, Byte)
    requires Sound(c)
  {
    if c.phase != 2 || |c.result| <= c.resIdx then (c, 0)
    else
      (c.(resIdx := c.resIdx + 1, phase := if |c.result| <= c.resIdx + 1 then 0 else c.phase),
       c.result[c.resIdx])
  }

  predicate LeavesReset(c: Control, v: Byte) {
    !Bit(c.dor, 0x04) && Bit(v, 0x04)
  }

  function WriteDor(c: Control, v: Byte): Control {
    if LeavesReset(c, v) then
      c.(dor := v, phase := 0, resIdx := 0, st0 := 0xC0, intPending := true)
    else c.(dor := v)
  }

  function Msr(c: Control): Byte {
    0x80 + (if c.phase == 2 then 0x40 else 0) + (if c.phase != 0 then 0x10 else 0)
  }

  // ----- Runs over the ports -----

  datatype Event =
    | Data(value: Byte, outcome: Outcome)
    | Fetch
    | Dor(value: Byte)

  function Step(c: Control, e: Event): Control
    requires Sound(c)
  {
    match e
    case Data(v, o) => WriteData(c, v, o)
    case Fetch => ReadData(c).0
    case Dor(v) => WriteDor(c, v)
  }

  lemma ExecuteSound(c: Control, o: Outcome)
    requires Complete(c)
    ensures Sound(Execute(c, o))
  {
  }

  lemma StepSound(c: Control, e: Event)
    requires Sound(c)
    ensures Sound(Step(c, e))
  {
    if e.Data? && Executes(c, e.value) {
      ExecuteSound(Collected(c, e.value), e.outcome);
    }
  }

  function Run(c: Control, es: seq<Event>): (c': Control)
    requires Sound(c)
    ensures Sound(c')
    decreases |es|
  {
    if es == [] then c
    else
      StepSound(c, es[0]);
      Run(Step(c, es[0]), es[1..])
  }

  /**
   Over any bytes on the ports: a command is never complete while it is collected,
   the result index stays inside the result, and the direction bit of the main status
   register is set exactly while a result byte is unread.
   */
  lemma {:induction false} PhasesHold(es: seq<Event>)
    ensures var c := Run(POWER_ON, es);
            && (c.phase == 1 ==> 1 <= |c.cmd| < 1 + ParamCount(c.cmd[0]))
            && (c.phase == 2 ==> 0 <= c.resIdx < |c.result|)
            && (Bit(Msr(c), 0x40) <==> c.phase == 2)
            && (Bit(Msr(c), 0x10) <==> c.phase != 0)
            && Msr(c) == if c.phase == 0 then 0x80 else if c.phase == 1 then 0x90 else 0xD0
  {
    var c := Run(POWER_ON, es);
    assert c.phase == 0 || c.phase == 1 || c.phase == 2;
  }

  // ----- A whole command -----

  function ResultLength(cmd: Byte): int {
    match cmd % 0x20
    case 0x03 => 0
    case 0x07 => 0
    case 0x0F => 0
    case 0x08 => 2  // 1 when no interrupt is pending
    case 0x05 => 7
    case 0x06 => 7
    case 0x0A => 7
    case _ => 1
  }

  function Feed(c: Control, bytes: seq<Byte>, o: Outcome): (c': Control)
    requires Sound(c)
    ensures Sound(c')
    decreases |bytes|
  {
    if bytes == [] then c
    else
      var n := |bytes| - 1;
      var before := Feed(c, bytes[..n], o);
      StepSound(before, Data(bytes[n], o));
      WriteData(before, bytes[n], o)
  }

  /** Reads `n` bytes from the data port. */
  function FetchAll(c: Control, n: nat): (r: (Control, seq<Byte>))
    requires Sound(c)
    ensures Sound(r.0)
    decreases n
  {
    if n == 0 then (c, [])
    else
      var (c1, b) := ReadData(c);
      StepSound(c, Fetch);
      var (c2, rest) := FetchAll(c1, n - 1);
      (c2, [b] + rest)
  }

  lemma FeedSnoc(c: Control, bytes: seq<Byte>, v: Byte, o: Outcome)
    requires Sound(c)
    ensures Feed(c, bytes + [v], o) == WriteData(Feed(c, bytes, o), v, o)
  {
    assert (bytes + [v])[..|bytes|] == bytes;
  }

  /** An idle controller that has received some bytes of a command. */
  function Receiving(c: Control, bytes: seq<Byte>): Control
    requires bytes != []
  {
    c.(phase := 1, cmd := bytes, needed := 1 + ParamCount(bytes[0]))
  }

  lemma ReceivesNext(c: Control, bytes: seq<Byte>, v: Byte, o: Outcome)
    requires bytes != [] && |bytes| < ParamCount(bytes[0])
    ensures WriteData(Receiving(c, bytes), v, o) == Receiving(c, bytes + [v])
  {
  }

  /** Parameters are collected one by one; nothing runs before the last. */
  lemma {:induction false} FeedCollects(c: Control, bytes: seq<Byte>, o: Outcome)
    requires c.phase == 0 && bytes != [] && |bytes| < 1 + ParamCount(bytes[0])
    ensures Feed(c, bytes, o) == Receiving(c, bytes)
    decreases |bytes|
  {
    var n := |bytes| - 1;
    var front, v := bytes[..n], bytes[n];
    assert bytes == front + [v];
    FeedSnoc(c, front, v, o);
    if n != 0 {
      FeedCollects(c, front, o);
      ReceivesNext(c, front, v, o);
    }
  }

  /** The last byte of a command runs it on exactly the bytes that were sent. */
  lemma CommandExecutes(c: Control, bytes: seq<Byte>, o: Outcome)
    requires c.phase == 0 && bytes != [] && |bytes| == 1 + ParamCount(bytes[0])
    ensures var ready := c.(phase := 1, cmd := bytes, needed := |bytes|);
            Complete(ready) && Feed(c, bytes, o) == Execute(ready, o)
  {
    var n := |bytes| - 1;
    if n == 0 {
      assert bytes[..0] == [] && bytes == [bytes[0]];
    } else {
      FeedCollects(c, bytes[..n], o);
      assert bytes == bytes[..n] + [bytes[n]];
    }
  }

  /** Reading out a result takes exactly as many reads as there are bytes left. */
  lemma {:induction false} FetchesResult(c: Control, n: nat)
    requires c.phase == 2 && 0 <= c.resIdx && c.resIdx + n <= |c.result| && 0 < n
    ensures FetchAll(c, n).1 == c.result[c.resIdx..c.resIdx + n]
    ensures FetchAll(c, n).0 ==
            c.(resIdx := c.resIdx + n, phase := if c.resIdx + n == |c.result| then 0 else 2)
    decreases n
  {
    var (c1, b) := ReadData(c);
    if n == 1 {
      assert FetchAll(c1, 0) == (c1, []);
    } else {
      FetchesResult(c1, n - 1);
      assert c.result[c.resIdx..c.resIdx + n] == [b] + c.result[c.resIdx + 1..c.resIdx + n];
    }
  }

  /** How many result bytes a complete command leaves, and in which phase. */
  lemma ResultShape(c: Control, o: Outcome)
    requires Complete(c)
    ensures var done := Execute(c, o);
            if ResultLength(c.cmd[0]) == 0 then done.phase == 0
            else
              && done.phase == 2 && done.resIdx == 0 && 0 < |done.result|
              && |done.result| ==
                 if c.cmd[0] % 0x20 == 0x08 && !c.intPending then 1 else ResultLength(c.cmd[0])
  {
  }

  /** A result is read out in order, and the controller is idle exactly at its end. */
  ghost predicate ReadsOut(c: Control)
    requires Sound(c)
  {
    && FetchAll(c, |c.result|).1 == c.result
    && FetchAll(c, |c.result|).0.phase == 0
    && forall k | 0 < k < |c.result| :: FetchAll(c, k).0.phase == 2
  }

  lemma ResultReadsOut(c: Control)
    requires c.phase == 2 && c.resIdx == 0 && 0 < |c.result|
    ensures ReadsOut(c)
  {
    FetchesResult(c, |c.result|);
    assert c.result[0..|c.result|] == c.result;
    forall k | 0 < k < |c.result| ensures FetchAll(c, k).0.phase == 2 {
      FetchesResult(c, k);
    }
  }

  /**
   Every command, sent whole to an idle controller, ends idle after exactly as many
   data reads as it has result bytes, and those reads deliver the result in order.
   */
  lemma CommandCycle(c: Control, bytes: seq<Byte>, o: Outcome)
    requires c.phase == 0 && bytes != [] && |bytes| == 1 + ParamCount(bytes[0])
    ensures forall k | 0 < k < |bytes| :: Feed(c, bytes[..k], o).phase == 1
    ensures var done := Feed(c, bytes, o);
            if ResultLength(bytes[0]) == 0 then done.phase == 0
            else
              && done.phase == 2 && ReadsOut(done)
              && |done.result| ==
                 if bytes[0] % 0x20 == 0x08 && !c.intPending then 1 else ResultLength(bytes[0])
  {
    forall k | 0 < k < |bytes| ensures Feed(c, bytes[..k], o).phase == 1 {
      FeedCollects(c, bytes[..k], o);
    }
    CommandExecutes(c, bytes, o);
    ResultShape(c.(phase := 1, cmd := bytes, needed := |bytes|), o);
    if ResultLength(bytes[0]) != 0 {
      ResultReadsOut(Feed(c, bytes, o));
    }
  }

  // ----- The commands, by their bytes -----

  /** Seek ends with the drive on the cylinder and an interrupt pending. */
  lemma Seeks(c: Control, params: Byte, cylinder: Byte, o: Outcome)
    requires c.phase == 0
    ensures var sought := Feed(c, [0x0F, params, cylinder], o);
            && sought.phase == 0 && sought.intPending && sought.st0 == 0x20 + params % 4
            && sought.pcn == c.pcn[params % 4 := cylinder]
  {
    CommandExecutes(c, [0x0F, params, cylinder], o);
  }

  /** Recalibrate does so for cylinder 0. */
  lemma Recalibrates(c: Control, params: Byte, o: Outcome)
    requires c.phase == 0
    ensures var sought := Feed(c, [0x07, params], o);
            && sought.phase == 0 && sought.intPending && sought.st0 == 0x20 + params % 4
            && sought.pcn == c.pcn[params % 4 := 0]
  {
    CommandExecutes(c, [0x07, params], o);
  }

  /** Specify takes its two parameters and leaves no trace. */
  lemma Specifies(c: Control, a: Byte, b: Byte, o: Outcome)
    requires c.phase == 0
    ensures Feed(c, [0x03, a, b], o) == c.(cmd := [0x03, a, b], needed := 3)
  {
    CommandExecutes(c, [0x03, a, b], o);
  }

  /** What a command leaves to be read, with the rest of the controller as it was. */
  predicate Reports(c: Control, c': Control, res: seq<Byte>) {
    c'.phase == 2 && c'.resIdx == 0 && c'.result == res && c'.pcn == c.pcn && c'.dor == c.dor
  }

  /** Sense Drive Status reports the drive, ready, and whether it is on track 0; nothing is pending for it. */
  lemma SensesDrive(c: Control, params: Byte, o: Outcome)
    requires c.phase == 0
    ensures var sensed := Feed(c, [0x04, params], o);
            && Reports(c, sensed, [0x20 + params % 4 + if c.pcn[params % 4] == 0 then 0x10 else 0])
            && sensed.intPending == c.intPending && sensed.st0 == c.st0
  {
    CommandExecutes(c, [0x04, params], o);
    DriveStatus(c.(phase := 1, cmd := [0x04, params], needed := 2), params);
  }

  lemma DriveStatus(c: Control, params: Byte)
    requires c.cmd == [0x04, params]
    ensures SenseDrive(c) ==
            c.(phase := 2, resIdx := 0,
               result := [0x20 + params % 4 + if c.pcn[params % 4] == 0 then 0x10 else 0])
  {
  }

  /** Read ID reports drive and head, the cylinder the drive is on, sector 1 and size code 2. */
  lemma ReadsId(c: Control, params: Byte, o: Outcome)
    requires c.phase == 0
    ensures var id := Feed(c, [0x4A, params], o);
            && Reports(c, id, [params % 8, 0, 0, c.pcn[params % 4], params / 4 % 2, 1, 2])
            && id.intPending && id.st0 == params % 8
  {
    CommandExecutes(c, [0x4A, params], o);
    IdOf(c.(phase := 1, cmd := [0x4A, params], needed := 2), params);
  }

  lemma IdOf(c: Control, params: Byte)
    requires c.cmd == [0x4A, params]
    ensures var id := ReadId(c);
            && Reports(c, id, [params % 8, 0, 0, c.pcn[params % 4], params / 4 % 2, 1, 2])
            && id.intPending && id.st0 == params % 8
  {
    DriveAndHead(params);
  }

  /** Drive and head are the low three bits of the first parameter. */
  lemma DriveAndHead(params: Byte)
    ensures params % 4 + 4 * (params / 4 % 2) == params % 8
  {
    QuotientIs(params, 8, params / 8, params % 8);
    QuotientIs(params, 4, 2 * (params / 8) + params % 8 / 4, params % 8 % 4);
    QuotientIs(2 * (params / 8) + params % 8 / 4, 2, params / 8, params % 8 / 4);
  }

  /**
   The commands that are not carried out report 0x80: Read Deleted and Write Deleted Data after
   eight parameters, Format Track after five, every other code at once.
   */
  lemma Refuses(c: Control, bytes: seq<Byte>, o: Outcome)
    requires c.phase == 0 && bytes != []
    requires var op := bytes[0] % 0x20;
             || (op in {0x09, 0x0C} && |bytes| == 9) || (op == 0x0D && |bytes| == 6)
             || (op !in {0x03, 0x04, 0x05, 0x06, 0x07, 0x08, 0x09, 0x0A, 0x0C, 0x0D, 0x0F} && |bytes| == 1)
    ensures var refused := Feed(c, bytes, o);
            Reports(c, refused, [0x80]) && refused.intPending == c.intPending && refused.st0 == c.st0
  {
    CommandExecutes(c, bytes, o);
  }

  /** Bytes written while a result waits are ignored; a read with none waiting gives zero. */
  lemma OutOfTurn(c: Control, v: Byte, o: Outcome)
    requires Sound(c)
    ensures c.phase == 2 ==> WriteData(c, v, o) == c
    ensures c.phase != 2 ==> ReadData(c) == (c, 0)
  {
  }

  /** An interrupt becomes pending with exactly the commands that raise IRQ6. */
  lemma InterruptsArePending(c: Control, o: Outcome)
    requires Complete(c) && !c.intPending
    ensures Execute(c, o).intPending <==> Interrupts(c.cmd[0])
  {
  }

  /**
   Leaving reset aborts whatever went on; Sense Interrupt then reports the changed ready
   line, 0xC0, and the cylinder of drive 0.
   */
  lemma ResetThenSense(c: Control, v: Byte, o: Outcome)
    requires Sound(c) && !Bit(c.dor, 0x04) && Bit(v, 0x04)
    ensures WriteDor(c, v).phase == 0 && WriteDor(c, v).dor == v
    ensures FetchAll(Feed(WriteDor(c, v), [0x08], o), 2).1 == [0xC0, c.pcn[0]]
  {
    Senses(WriteDor(c, v), o);
    FetchesResult(Feed(WriteDor(c, v), [0x08], o), 2);
  }

  /** Sense Interrupt leaves its answer to be read and no interrupt pending. */
  lemma Senses(c: Control, o: Outcome)
    requires c.phase == 0
    ensures var sensed := Feed(c, [0x08], o);
            && sensed.phase == 2 && sensed.resIdx == 0 && !sensed.intPending
            && sensed.result == if c.intPending then [c.st0, c.pcn[c.st0 % 4]] else [0x80]
  {
    CommandExecutes(c, [0x08], o);
  }

  /**
   Sense Interrupt after a seek reports seek end for that drive and its new cylinder,
   once; asked again without a new interrupt it answers 0x80.
   */
  lemma SeekThenSense(c: Control, params: Byte, cylinder: Byte, o: Outcome)
    requires c.phase == 0
    ensures var sought := Feed(c, [0x0F, params, cylinder], o);
            var sensed := Feed(sought, [0x08], o);
            var idle := FetchAll(sensed, 2).0;
            && FetchAll(sensed, 2).1 == [0x20 + params % 4, cylinder]
            && FetchAll(Feed(idle, [0x08], o), 1).1 == [0x80]
  {
    Seeks(c, params, cylinder, o);
    var sought := Feed(c, [0x0F, params, cylinder], o);
    Senses(sought, o);
    var sensed := Feed(sought, [0x08], o);
    FetchesResult(sensed, 2);
    var idle := FetchAll(sensed, 2).0;
    Senses(idle, o);
    FetchesResult(Feed(idle, [0x08], o), 1);
  }
}
