/**
 Read Data and Write Data as whole commands: exact effect on memory, image and DMA
 registers, and the round trip between the two.
 */
module FdcResults {
  import opened Bytes
  import opened Memory
  import opened FloppyDisk
  import opened FdcControl
  import opened Dma
  import opened FdcTransfer
  import opened Fdc
  import Pic

  predicate IsWrite(cmd: seq<Byte>)
    requires |cmd| == 9
  {
    cmd[0] % 0x20 == 0x05
  }

  /** The outcome of a data command on these media. */
  ghost function Course(cmd: seq<Byte>, g: Geometry, m: Media): (o: Outcome)
    requires Ready(cmd, g, m)
    ensures o.Ran?
  {
    PlanOf(cmd, m.dma.channels[2].count, Some(g))
  }

  lemma CourseFits(cmd: seq<Byte>, rom: seq<RomRange>, g: Geometry, m: Media)
    requires Ready(cmd, g, m)
    ensures var j, o := JobOf(cmd, rom, g), Course(cmd, g, m);
            && Fits(j, m) && o.sectors <= j.sectors
            && o.sectors <= DmaLimit(m.dma.channels[2].count)
            && (o.failed ==> o.sectors == j.sectors && j.sectors < DmaLimit(m.dma.channels[2].count))
  {
    JobFits(IsWrite(cmd), rom, g, cmd[2], cmd[3], cmd[4], m);
  }

  /**
   The result bytes of a data command: drive and head with the failure bit, ST1, ST2, and
   the next sector of the cylinder and head addressed, with the size code.
   */
  function Report(cmd: seq<Byte>, failed: bool, sectors: nat): seq<Byte>
    requires |cmd| == 9
  {
    [cmd[1] % 8 + (if failed then 0x40 else 0), if failed then 0x04 else 0, 0,
     cmd[2], cmd[3], (if sectors == 0 then cmd[4] + 1 else cmd[4] + sectors) % 0x100, cmd[5]]
  }

  /** Without a disk the command fails at the sector addressed. */
  lemma NoDiskResult(cmd: seq<Byte>, c: Control)
    requires |cmd| == 9 && c.cmd == cmd
    ensures DataDone(c, NoDisk).result ==
            [cmd[1] % 8 + 0x40, 0x04, 0, cmd[2], cmd[3], cmd[4], cmd[5]]
  {
    DriveAndHead(cmd[1]);
  }

  /**
   How many sectors the turns of the loop move: the minimum of Terminal Count (the programmed bytes in whole
   sectors), EOT (at least one sector) and the end of the track; the command ends
   abnormally iff the track is the strict minimum, and reports the next sector.
   */
  lemma CourseIsMinimum(cmd: seq<Byte>, g: Geometry, m: Media, c: Control)
    requires Ready(cmd, g, m) && c.cmd == cmd
    ensures var o := Course(cmd, g, m);
            var count, c, h, r, eot := m.dma.channels[2].count, cmd[2], cmd[3], cmd[4], cmd[6];
            var byCount, byEot := (count + 1 + 511) / 512, if eot < r then 1 else eot - r + 1;
            var byTrack := if c < g.cylinders && h < g.heads && 1 <= r <= g.sectors then g.sectors - r + 1 else 0;
            && o.sectors == Min(Min(byCount, byEot), byTrack)
            && (o.failed <==> byTrack < byCount && byTrack < byEot)
            && o == Turns(m.dma.channels[2], g, c, h, r, eot)
    ensures var o := Course(cmd, g, m);
            var done := DataDone(c, o);
            && done.phase == 2 && done.result == Report(cmd, o.failed, o.sectors)
            && done.st0 == done.result[0] && done.intPending && done.pcn == c.pcn[cmd[1] % 4 := cmd[2]]
  {
    TurnsStopAtMinimum(m.dma.channels[2], g, cmd[2], cmd[3], cmd[4], cmd[6]);
    DoneReports(cmd, c, Course(cmd, g, m).sectors, Course(cmd, g, m).failed);
  }

  lemma DoneReports(cmd: seq<Byte>, c: Control, sectors: nat, failed: bool)
    requires |cmd| == 9 && c.cmd == cmd
    ensures var done := DataDone(c, Ran(sectors, failed));
            && done.phase == 2 && done.result == Report(cmd, failed, sectors)
            && done.st0 == done.result[0] && done.intPending && done.pcn == c.pcn[cmd[1] % 4 := cmd[2]]
  {
    DriveAndHead(cmd[1]);
  }

  /** Read Data: exactly the bytes that fit the limits land, and nothing else changes. */
  lemma ReadDataEffect(cmd: seq<Byte>, rom: seq<RomRange>, g: Geometry, m: Media)
    requires Ready(cmd, g, m) && !IsWrite(cmd)
    ensures var j, k := JobOf(cmd, rom, g), Course(cmd, g, m).sectors;
            Fits(j, m) && k <= j.sectors && HasRead(j, m, MediaAfter(cmd, rom, g, m), k)
  {
    CourseFits(cmd, rom, g, m);
    var j, o := JobOf(cmd, rom, g), Course(cmd, g, m);
    ReadPasses(j, m, o.sectors);
    if o.failed {
      FailedPass(j, m);
    }
  }

  /**
   The bytes follow one another in memory whenever the last sector starts inside the
   64 KB page: memory is the old one with the image bytes deposited at the channel's
   address (ROM excepted).
   */
  lemma ReadDataStraight(cmd: seq<Byte>, rom: seq<RomRange>, g: Geometry, m: Media)
    requires Ready(cmd, g, m) && !IsWrite(cmd)
    requires 0 < Course(cmd, g, m).sectors
    requires m.dma.channels[2].addr + 0x200 * (Course(cmd, g, m).sectors - 1) < 0x1_0000
    ensures var c, off := m.dma.channels[2], SectorOffset(g, cmd[2], cmd[3], cmd[4]);
            var n := Min(c.count + 1, 512 * Course(cmd, g, m).sectors);
            && 0 <= off && off + n <= |m.image|
            && MediaAfter(cmd, rom, g, m).mem == Deposit(m.mem, rom, Base(c), m.image[off..off + n])
  {
    var j, k := JobOf(cmd, rom, g), Course(cmd, g, m).sectors;
    CourseFits(cmd, rom, g, m);
    ReadDataEffect(cmd, rom, g, m);
    HasReadStraight(j, m, MediaAfter(cmd, rom, g, m), k);
  }

  /** Where byte `i` of a transfer is in memory: sectors start at the wrapped 16-bit address. */
  function ByteAddress(c: Channel, i: int): int {
    (0x1_0000 * c.page + (c.addr + i / 512 * 512) % 0x1_0000 + i % 512) % 0x10_0000
  }

  /** Where the addressed sector starts in the image. */
  function FirstByte(cmd: seq<Byte>, g: Geometry): int
    requires |cmd| == 9
  {
    512 * ((cmd[2] * g.heads + cmd[3]) * g.sectors + cmd[4] - 1)
  }

  lemma JobStart(cmd: seq<Byte>, rom: seq<RomRange>, g: Geometry)
    requires |cmd| == 9 && Standard(g)
    ensures JobOf(cmd, rom, g).start == FirstByte(cmd, g)
  {
    FormatFacts(g);
  }

  lemma DestIs(c: Channel, i: nat)
    ensures Dest(c, i) == ByteAddress(c, i)
  {
  }

  /** Read Data byte by byte: each is found at its address unless ROM is there. */
  lemma ReadDataBytes(cmd: seq<Byte>, rom: seq<RomRange>, g: Geometry, m: Media, i: nat)
    requires Ready(cmd, g, m) && !IsWrite(cmd)
    requires i < Min(m.dma.channels[2].count + 1, 512 * Course(cmd, g, m).sectors)
    ensures var a, p := ByteAddress(m.dma.channels[2], i), FirstByte(cmd, g) + i;
            && 0 <= p < |m.image|
            && MediaAfter(cmd, rom, g, m).mem[a] == if IsRom(rom, a) then m.mem[a] else m.image[p]
  {
    ReadDataEffect(cmd, rom, g, m);
    JobStart(cmd, rom, g);
    DestIs(m.dma.channels[2], i);
    HasReadByte(JobOf(cmd, rom, g), m, MediaAfter(cmd, rom, g, m), Course(cmd, g, m).sectors, i);
  }

  /** Write Data: the bytes gathered from memory replace exactly the same stretch of the image. */
  lemma WriteDataEffect(cmd: seq<Byte>, rom: seq<RomRange>, g: Geometry, m: Media)
    requires Ready(cmd, g, m) && IsWrite(cmd)
    ensures var j, o := JobOf(cmd, rom, g), Course(cmd, g, m);
            && Fits(j, m) && o.sectors <= j.sectors
            && MediaAfter(cmd, rom, g, m) == Media(m.mem, Written(j, m, o.sectors), DmaAfter(m, PassCount(o)))
  {
    CourseFits(cmd, rom, g, m);
    var j, o := JobOf(cmd, rom, g), Course(cmd, g, m);
    WritePasses(j, m, o.sectors);
    if o.failed {
      FailedPass(j, m);
    }
  }

  /** Write Data byte by byte: each is taken from its address, and the rest of the image stays. */
  lemma WriteDataBytes(cmd: seq<Byte>, rom: seq<RomRange>, g: Geometry, m: Media, p: int)
    requires Ready(cmd, g, m) && IsWrite(cmd) && 0 <= p < |m.image|
    ensures var i, n := p - FirstByte(cmd, g), Min(m.dma.channels[2].count + 1, 512 * Course(cmd, g, m).sectors);
            && |MediaAfter(cmd, rom, g, m).image| == |m.image|
            && MediaAfter(cmd, rom, g, m).image[p] ==
               if 0 <= i < n then m.mem[ByteAddress(m.dma.channels[2], i)] else m.image[p]
  {
    CourseFits(cmd, rom, g, m);
    WriteDataEffect(cmd, rom, g, m);
    JobStart(cmd, rom, g);
    if 0 <= p - FirstByte(cmd, g) {
      DestIs(m.dma.channels[2], p - FirstByte(cmd, g));
    }
  }

  /**
   Write Data, then Read Data with the same parameters and the same byte count
   programmed again: the destination holds the source bytes, memory is untouched
   elsewhere, and the image changed only in the stretch that was written.
   */
  lemma WriteThenReadData(w: seq<Byte>, r: seq<Byte>, rom: seq<RomRange>, g: Geometry, m: Media,
                          addr: Word, page: Byte)
    requires Ready(w, g, m) && IsWrite(w)
    requires |r| == 9 && r[0] % 0x20 == 0x06 && r[1..] == w[1..]
    requires 0 < Course(w, g, m).sectors
    ensures var src, k := m.dma.channels[2], Course(w, g, m).sectors;
            var n, off := Min(src.count + 1, 512 * k), SectorOffset(g, w[2], w[3], w[4]);
            var written := MediaAfter(w, rom, g, m);
            var programmed := written.(dma := ProgramFloppy(written.dma, addr, page, src.count));
            && |written.image| == |m.image|
            && var read := MediaAfter(r, rom, g, programmed);
            && programmed.dma.channels[2].addr == addr && programmed.dma.channels[2].page == page
            && read.mem == Land(m.mem, rom, programmed.dma.channels[2], Gathered(m.mem, src, n))
            && read.image == written.image
            && forall p | 0 <= p < |m.image| && !(off <= p < off + n) :: read.image[p] == m.image[p]
  {
    var src := m.dma.channels[2];
    var j, k := JobOf(w, rom, g), Course(w, g, m).sectors;
    var written := MediaAfter(w, rom, g, m);
    var programmed := written.(dma := ProgramFloppy(written.dma, addr, page, src.count));
    CourseFits(w, rom, g, m);
    MovesSectors(w, rom, g, m);
    WriteThenRead(j, m, k, written.dma, addr, page);
    ProgramSetsChannel(written.dma, addr, page, src.count);
    SameParameters(w, r, rom, g, m, programmed);
    MovesSectors(r, rom, g, programmed);
    assert programmed == Passes(j, m, k).(dma := programmed.dma);
  }

  /** A pass that fails changes neither memory nor image. */
  lemma MovesSectors(cmd: seq<Byte>, rom: seq<RomRange>, g: Geometry, m: Media)
    requires Ready(cmd, g, m)
    ensures var j, k := JobOf(cmd, rom, g), Course(cmd, g, m).sectors;
            && Fits(j, m)
            && MediaAfter(cmd, rom, g, m).mem == Passes(j, m, k).mem
            && MediaAfter(cmd, rom, g, m).image == Passes(j, m, k).image
  {
    CourseFits(cmd, rom, g, m);
    if Course(cmd, g, m).failed {
      FailedPass(JobOf(cmd, rom, g), m);
    }
  }

  /** Read Data with the parameters of a Write Data and the same count does the same job, reading. */
  lemma SameParameters(w: seq<Byte>, r: seq<Byte>, rom: seq<RomRange>, g: Geometry, m: Media, m': Media)
    requires Ready(w, g, m) && IsWrite(w) && Ready(r, g, m') && !IsWrite(r) && r[1..] == w[1..]
    requires m'.dma.channels[2].count == m.dma.channels[2].count
    ensures JobOf(r, rom, g) == JobOf(w, rom, g).(write := false)
    ensures Course(r, g, m') == Course(w, g, m)
  {
    forall i | 1 <= i < 9 ensures r[i] == w[i] { assert r[1..][i - 1] == w[1..][i - 1]; }
  }

  // ----- Data commands through the ports -----

  /** An idle controller that has collected these bytes of a data command. */
  function Collecting(c: Control, bytes: seq<Byte>): Control {
    c.(phase := 1, cmd := bytes, needed := 9)
  }

  lemma CollectsNext(c: Control, bytes: seq<Byte>, i: nat)
    requires c.phase == 0 && |bytes| == 9 && IsData(bytes[0]) && i < 9
    ensures var before := if i == 0 then c else Collecting(c, bytes[..i]);
            && Collected(before, bytes[i]) == Collecting(c, bytes[..i + 1])
            && (Executes(before, bytes[i]) <==> i == 8)
  {
    assert bytes[..i] + [bytes[i]] == bytes[..i + 1];
  }

  /** The bytes of a data command, sent to the data port of an idle controller, run it. */
  method SendBytes(f: FDC, bytes: seq<Byte>)
    requires f.Valid() && f.disk != null && f.phase == 0 && |bytes| == 9 && IsData(bytes[0])
    modifies f`dor, f`phase, f`cmd, f`needed, f`result, f`resIdx, f`pcn, f`st0, f`intPending,
             f.dma, f.mem.data, f.irq6, f.Image()
    ensures f.Valid() && f.State() == DataDone(Collecting(old(f.State()), bytes), old(f.Outlook(bytes)))
    ensures f.MediaNow() == MediaAfter(bytes, f.mem.rom, f.disk.geo, old(f.MediaNow()))
    ensures f.irq6.Model() == Raised(old(f.irq6.Model()), f.State(), true)
  {
    ghost var c, m, p := f.State(), f.MediaNow(), f.irq6.Model();
    ghost var o := f.Outlook(bytes);
    for i := 0 to 8
      invariant f.Valid() && f.State() == if i == 0 then c else Collecting(c, bytes[..i])
      invariant f.MediaNow() == m && f.irq6.Model() == p
    {
      CollectsNext(c, bytes, i);
      f.Out8(0x3F5, bytes[i]);
    }
    CollectsNext(c, bytes, 8);
    assert bytes[..9] == bytes;
    f.Out8(0x3F5, bytes[8]);
  }

  /** Reads of the data port deliver the whole result, and leave the controller idle. */
  method FetchResult(f: FDC) returns (res: seq<Byte>)
    requires f.Valid() && f.phase == 2 && f.resIdx == 0
    modifies f`resIdx, f`phase
    ensures f.Valid() && res == f.result
    ensures f.State() == old(f.State()).(resIdx := |f.result|, phase := 0)
  {
    res := [];
    ghost var c := f.State();
    for i := 0 to |f.result|
      invariant f.Valid() && res == c.result[..i]
      invariant f.State() == c.(resIdx := i, phase := if i == |c.result| then 0 else 2)
    {
      var b := f.In8(0x3F5);
      res := res + [b];
    }
  }

  /**
   A data command through the ports of the controller, nine bytes in and seven out: the
   bytes have moved as the closed forms say, the result names the next sector, the
   controller is idle again and IRQ6 was raised if enabled.
   */
  method MoveThroughPorts(f: FDC, bytes: seq<Byte>) returns (res: seq<Byte>)
    requires f.Valid() && f.disk != null && f.phase == 0 && |bytes| == 9
    requires bytes[0] % 0x20 == 0x05 || bytes[0] % 0x20 == 0x06
    modifies f`dor, f`phase, f`cmd, f`needed, f`result, f`resIdx, f`pcn, f`st0, f`intPending,
             f.dma, f.mem.data, f.irq6, f.Image()
    ensures f.Valid() && f.phase == 0
    ensures Ready(bytes, f.disk.geo, old(f.MediaNow()))
    ensures var m, g := old(f.MediaNow()), f.disk.geo;
            var j, o := JobOf(bytes, f.mem.rom, g), Course(bytes, g, m);
            && Fits(j, m) && o.sectors <= j.sectors
            && (if bytes[0] % 0x20 == 0x05 then
                  f.MediaNow() == Media(m.mem, Written(j, m, o.sectors), DmaAfter(m, PassCount(o)))
                else HasRead(j, m, f.MediaNow(), o.sectors))
            && res == Report(bytes, o.failed, o.sectors)
            && f.st0 == res[0] && f.intPending && f.pcn == old(f.pcn)[bytes[1] % 4 := bytes[2]]
    ensures f.irq6.Model() == if Bit(f.dor, 0x08) then Pic.Raise(old(f.irq6.Model()), 6) else old(f.irq6.Model())
  {
    ghost var m, g := f.MediaNow(), f.disk.geo;
    SendBytes(f, bytes);
    MediaEffect(bytes, f.mem.rom, g, m);
    CourseIsMinimum(bytes, g, m, Collecting(old(f.State()), bytes));
    res := FetchResult(f);
  }

  lemma MediaEffect(cmd: seq<Byte>, rom: seq<RomRange>, g: Geometry, m: Media)
    requires Ready(cmd, g, m)
    ensures var j, o, after := JobOf(cmd, rom, g), Course(cmd, g, m), MediaAfter(cmd, rom, g, m);
            && Fits(j, m) && o.sectors <= j.sectors
            && if IsWrite(cmd) then after == Media(m.mem, Written(j, m, o.sectors), DmaAfter(m, PassCount(o)))
               else HasRead(j, m, after, o.sectors)
  {
    if IsWrite(cmd) {
      WriteDataEffect(cmd, rom, g, m);
    } else {
      ReadDataEffect(cmd, rom, g, m);
    }
  }

  /** Bit 2 of the DOR low and high again: the controller is idle with its interrupt raised. */
  method LeaveReset(f: FDC)
    requires f.Valid()
    modifies f`dor, f`phase, f`cmd, f`needed, f`result, f`resIdx, f`pcn, f`st0, f`intPending,
             f.dma, f.mem.data, f.irq6, f.Image()
    ensures f.Valid() && f.phase == 0 && f.dor == 0x0C && f.intPending && f.st0 == 0xC0 && f.pcn == old(f.pcn)
    ensures f.irq6.Model() == Pic.Raise(old(f.irq6.Model()), 6)
  {
    WriteDorPort(f, 0x08);
    WriteDorPort(f, 0x0C);
  }

  /** A byte to the digital output register at its port. */
  method WriteDorPort(f: FDC, v: Byte)
    requires f.Valid()
    modifies f`dor, f`phase, f`cmd, f`needed, f`result, f`resIdx, f`pcn, f`st0, f`intPending,
             f.dma, f.mem.data, f.irq6, f.Image()
    ensures f.Valid() && f.State() == WriteDor(old(f.State()), v)
    ensures f.irq6.Model() == Raised(old(f.irq6.Model()), f.State(), LeavesReset(old(f.State()), v))
  {
    f.Out8(0x3F2, v);
  }

  lemma SenseRuns(c: Control, o: Outcome)
    requires Sound(c) && c.phase == 0
    ensures WriteData(c, 0x08, o) == SenseInterrupt(c.(phase := 1, cmd := [0x08], needed := 1))
    ensures Executes(c, 0x08) && Collected(c, 0x08).cmd == [0x08]
  {
  }

  /** Sense Interrupt Status through the ports. */
  method SenseThroughPorts(f: FDC) returns (res: seq<Byte>)
    requires f.Valid() && f.phase == 0
    modifies f`dor, f`phase, f`cmd, f`needed, f`result, f`resIdx, f`pcn, f`st0, f`intPending,
             f.dma, f.mem.data, f.irq6, f.Image()
    ensures f.Valid() && f.phase == 0 && !f.intPending && f.dor == old(f.dor) && f.pcn == old(f.pcn)
    ensures res == if old(f.intPending) then [old(f.st0), old(f.pcn)[old(f.st0) % 4]] else [0x80]
    ensures f.irq6.Model() == old(f.irq6.Model())
  {
    SenseRuns(f.State(), f.Outlook([0x08]));
    f.Out8(0x3F5, 0x08);
    res := FetchResult(f);
  }

  /**
   A reset through the ports, and Sense Interrupt after it: the BIOS reads the changed ready
   line and the cylinder of drive 0, and IRQ6 was raised.
   */
  method ResetThroughPorts(f: FDC) returns (res: seq<Byte>)
    requires f.Valid()
    modifies f`dor, f`phase, f`cmd, f`needed, f`result, f`resIdx, f`pcn, f`st0, f`intPending,
             f.dma, f.mem.data, f.irq6, f.Image()
    ensures f.Valid() && f.phase == 0 && f.dor == 0x0C && !f.intPending
    ensures res == [0xC0, old(f.pcn)[0]]
    ensures f.irq6.Model() == Pic.Raise(old(f.irq6.Model()), 6)
  {
    LeaveReset(f);
    res := SenseThroughPorts(f);
  }
}
