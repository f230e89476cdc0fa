/**
 The floppy controller: the command machine of FdcControl driving the data phase of
 FdcTransfer over a disk image, DMA channel 2 and memory.
 */
module Fdc {
  import opened Bytes
  import opened FloppyDisk
  import opened FdcControl
  import T = FdcTransfer
  import Dma
  import Memory
  import Pic

  /** Sectors to Terminal Count or EOT. */
  function Stop(count: Word, r: int, eot: int): int {
    Min(T.DmaLimit(count), T.EotLimit(r, eot))
  }

  /**
   How a data command ends: at the smallest of Terminal Count, EOT and the end of the
   track, failing exactly when the track is the strict minimum.
   */
  function Plan(count: Word, g: Geometry, c: int, h: int, r: int, eot: int): (o: Outcome)
    requires Standard(g)
    ensures o.Ran?
  {
    FormatFacts(g);
    var track := T.TrackLimit(g, c, h, r);
    Ran(Min(Stop(count, r, eot), track), track < Stop(count, r, eot))
  }

  /**
   The sector loop on values, turn by turn from sector `s`: fail on an illegal address,
   otherwise move one sector and stop at the channel's Terminal Count or at EOT.
   */
  function Turns(ch: Dma.Channel, g: Geometry, c: int, h: int, s: int, eot: int): (o: Outcome)
    ensures o.Ran?
    decreases Max(0, g.sectors + 1 - s)
  {
    if !ValidChs(g, c, h, s) then Ran(0, true)
    else
      var n := Dma.Moved(ch, 0x200);
      if Dma.TerminalCount(ch, n) || eot <= s then Ran(1, false)
      else
        var rest := Turns(Dma.Advance(ch, n), g, c, h, s + 1, eot);
        Ran(rest.sectors + 1, rest.failed)
  }

  lemma LastTurn(ch: Dma.Channel, s: int, eot: int)
    ensures Dma.TerminalCount(ch, Dma.Moved(ch, 0x200)) || eot <= s <==> Stop(ch.count, s, eot) == 1
    ensures Stop(ch.count, s, eot) != 1 ==> Dma.Moved(ch, 0x200) == 0x200
  {
  }

  /** A turn that goes on leaves each limit smaller by one. */
  lemma NextTurn(ch: Dma.Channel, g: Geometry, c: int, h: int, s: int, eot: int)
    requires Standard(g) && ValidChs(g, c, h, s) && Stop(ch.count, s, eot) != 1
    ensures Stop(Dma.Advance(ch, 0x200).count, s + 1, eot) == Stop(ch.count, s, eot) - 1
    ensures T.TrackLimit(g, c, h, s + 1) == T.TrackLimit(g, c, h, s) - 1
  {
  }

  /** The loop stops at the smallest of its three limits. */
  lemma {:induction false} TurnsStopAtMinimum(ch: Dma.Channel, g: Geometry, c: int, h: int, s: int, eot: int)
    requires Standard(g)
    ensures Turns(ch, g, c, h, s, eot) == Plan(ch.count, g, c, h, s, eot)
    decreases Max(0, g.sectors + 1 - s)
  {
    LastTurn(ch, s, eot);
    if ValidChs(g, c, h, s) && Stop(ch.count, s, eot) != 1 {
      NextTurn(ch, g, c, h, s, eot);
      TurnsStopAtMinimum(Dma.Advance(ch, 0x200), g, c, h, s + 1, eot);
    }
  }

  /** Passes of the loop, counting the one that found the address illegal. */
  function PassCount(o: Outcome): nat
    requires o.Ran?
  {
    o.sectors + if o.failed then 1 else 0
  }

  /** The address test and the exit test of turn `k` in terms of the limits. */
  lemma TurnLimits(count: Word, g: Geometry, c: int, h: int, r: int, eot: int, k: nat)
    requires Standard(g) && k < Stop(count, r, eot) && k <= T.TrackLimit(g, c, h, r)
    ensures ValidChs(g, c, h, r + k) <==> k < T.TrackLimit(g, c, h, r)
    ensures k + 1 == Stop(count, r, eot) <==> count - 0x200 * k + 1 <= 0x200 || eot <= r + k
  {
  }

  /** The channel after `k` whole sectors of a job that has not reached Terminal Count. */
  lemma CountAfter(j: T.Job, m: T.Media, k: nat)
    requires T.Fits(j, m) && k < T.DmaLimit(m.dma.channels[2].count) && k <= j.sectors
    ensures var c := m.dma.channels[2];
            var c' := T.Passes(j, m, k).dma.channels[2];
            && c'.count == c.count - 0x200 * k
            && (Dma.TerminalCount(c', Dma.Moved(c', 0x200)) <==> c.count - 0x200 * k + 1 <= 0x200)
  {
    if j.write { T.WritePasses(j, m, k); } else { T.ReadPasses(j, m, k); }
    T.SectorShare(m.dma.channels[2], k + 1);
    T.DmaStep(m, k + 1);
  }

  /** Where the loop stands after `k` good sectors. */
  predicate EndsAt(stop: int, track: int, k: nat, failed: bool, done: bool) {
    && k <= track
    && (failed ==> k == track && k < stop)
    && (!failed ==> if done then k == stop else k < stop)
  }

  /** The outcome of the collected command on an inserted or missing disk. */
  function PlanOf(cmd: seq<Byte>, count: Word, g: Option<Geometry>): Outcome
    requires 7 <= |cmd| && (g.Some? ==> Standard(g.value))
  {
    match g
    case None => NoDisk
    case Some(geo) => Plan(count, geo, cmd[2], cmd[3], cmd[4], cmd[6])
  }

  function JobOf(cmd: seq<Byte>, rom: seq<Memory.RomRange>, g: Geometry): T.Job
    requires 7 <= |cmd|
  {
    T.JobFor(cmd[0] % 0x20 == 0x05, rom, g, cmd[2], cmd[3], cmd[4])
  }

  /** A data command with all its parameters, on a standard image. */
  ghost predicate Ready(cmd: seq<Byte>, g: Geometry, m: T.Media) {
    && |cmd| == 9 && IsData(cmd[0])
    && Standard(g) && |m.mem| == Memory.SIZE && |m.image| == ImageSize(g)
  }

  /** Disk, memory and DMA after a complete command. */
  ghost function MediaAfter(cmd: seq<Byte>, rom: seq<Memory.RomRange>, g: Geometry, m: T.Media): T.Media {
    if !Ready(cmd, g, m) then m
    else
      T.JobFits(cmd[0] % 0x20 == 0x05, rom, g, cmd[2], cmd[3], cmd[4], m);
      T.Passes(JobOf(cmd, rom, g), m, PassCount(PlanOf(cmd, m.dma.channels[2].count, Some(g))))
  }

  /** IRQ6 is raised exactly when asked for and enabled in the DOR. */
  function Raised(p: Pic.Controller, c: Control, asked: bool): Pic.Controller {
    if asked && IrqEnabled(c) then Pic.Raise(p, 6) else p
  }

  class FDC {
    var dor: Byte
    var phase: int
    var cmd: seq<Byte>
    var needed: int
    var result: seq<Byte>
    var resIdx: int
    var pcn: Drives
    var st0: Byte
    var intPending: bool

    var disk: Floppy?
    const dma: Dma.DMA
    const mem: Memory.Bus
    const irq6: Pic.PIC

    ghost predicate Valid()
      reads this, mem, irq6
    {
      Sound(State()) && Wired()
    }

    ghost predicate Wired()
      reads this`disk, mem, irq6
    {
      && mem.Valid() && irq6.Valid()
      && (disk != null ==> disk.Valid() && disk.data != mem.data)
    }

    ghost function State(): Control
      reads this
    {
      Control(dor, phase, cmd, needed, result, resIdx, pcn, st0, intPending)
    }

    /** The image of the inserted disk. */
    ghost function Image(): set<object>
      reads this`disk
    {
      if disk != null then {disk.data} else {}
    }

    ghost function MediaNow(): T.Media
      requires disk != null
      reads this`disk, dma, mem.data, Image()
    {
      T.Media(mem.data[..], disk.data[..], dma.State())
    }

    constructor (dma: Dma.DMA, mem: Memory.Bus, irq6: Pic.PIC)
      requires mem.Valid() && irq6.Valid()
      ensures Valid() && State() == POWER_ON && disk == null
      ensures this.dma == dma && this.mem == mem && this.irq6 == irq6
    {
      dor, phase, cmd, needed, result, resIdx := 0, 0, [], 0, [], 0;
      pcn, st0, intPending, disk := [0, 0, 0, 0], 0, false, null;
      this.dma, this.mem, this.irq6 := dma, mem, irq6;
    }

    // ----- Results and interrupts -----

    method FireIRQ()
      requires irq6.Valid()
      modifies irq6
      ensures irq6.Valid() && irq6.Model() == Raised(old(irq6.Model()), State(), true)
    {
      if Bit(dor, 0x08) {
        irq6.RaiseIRQ(6);
      }
    }

    method SetResult(res: seq<Byte>, raiseIRQ: bool)
      requires irq6.Valid()
      modifies this`result, this`resIdx, this`phase, irq6
      ensures State() == GiveResult(old(State()), res)
      ensures irq6.Valid() && irq6.Model() == Raised(old(irq6.Model()), State(), raiseIRQ)
    {
      result := res;
      resIdx := 0;
      phase := 2;
      if raiseIRQ {
        FireIRQ();
      }
    }

    method FinishSeek(drive: int)
      requires 0 <= drive < 4 && irq6.Valid()
      modifies this`st0, this`intPending, this`phase, irq6
      ensures State() == SeekDone(old(State()), drive)
      ensures irq6.Valid() && irq6.Model() == Raised(old(irq6.Model()), State(), true)
    {
      st0 := 0x20 + drive;
      intPending := true;
      phase := 0;
      FireIRQ();
    }

    // ----- The data phase -----

    /** Moves one sector, the `i`-th of the job, between disk and memory. */
    method TransferSector(write: bool, c: int, h: int, s: int, ghost j: T.Job, ghost i: nat)
      returns (failed: bool, tc: bool)
      requires Wired() && disk != null
      requires j.write == write && j.rom == mem.rom && T.Fits(j, MediaNow())
      requires i < j.sectors <==> ValidChs(disk.geo, c, h, s)
      requires i < j.sectors ==> T.SectorAt(j, i) == SectorOffset(disk.geo, c, h, s)
      modifies dma, mem.data, disk.data
      ensures failed == !ValidChs(disk.geo, c, h, s)
      ensures MediaNow() == T.Pass(j, old(MediaNow()), i)
      ensures !failed ==>
        tc == Dma.TerminalCount(old(dma.channels[2]), Dma.Moved(old(dma.channels[2]), 0x200))
    {
      tc := false;
      if write {
        var bytes;
        bytes, tc := dma.TransferFromMemory(2, mem, 0x200);
        var ok := disk.WriteSector(c, h, s, bytes);
        failed := !ok;
      } else {
        var bytes := disk.ReadSector(c, h, s);
        failed := bytes.None?;
        if bytes.Some? {
          tc := dma.TransferToMemory(2, mem, bytes.value);
        }
      }
    }

    /** One turn of the sector loop: transfer, then test for Terminal Count and EOT. */
    method Turn(write: bool, c: int, h: int, r: int, s: int, eot: int, ghost m: T.Media, ghost k: nat)
      returns (failed: bool, done: bool)
      requires Wired() && disk != null && s == r + k
      requires k < Stop(m.dma.channels[2].count, r, eot) && k <= T.TrackLimit(disk.geo, c, h, r)
      requires T.Fits(T.JobFor(write, mem.rom, disk.geo, c, h, r), m)
      requires MediaNow() == T.Passes(T.JobFor(write, mem.rom, disk.geo, c, h, r), m, k)
      modifies dma, mem.data, disk.data
      ensures MediaNow() == T.Passes(T.JobFor(write, mem.rom, disk.geo, c, h, r), m, k + 1)
      ensures failed <==> k == T.TrackLimit(disk.geo, c, h, r)
      ensures !failed ==> (done <==> k + 1 == Stop(m.dma.channels[2].count, r, eot))
    {
      ghost var j := T.JobFor(write, mem.rom, disk.geo, c, h, r);
      TurnLimits(m.dma.channels[2].count, disk.geo, c, h, r, eot, k);
      T.JobSector(write, mem.rom, disk.geo, c, h, r, k);
      CountAfter(j, m, k);
      var tc;
      failed, tc := TransferSector(write, c, h, s, j, k);
      done := tc || s >= eot;
    }

    /** The sector loop of Read Data and Write Data. */
    method RunSectors(write: bool, c: int, h: int, r: int, eot: int) returns (failed: bool, k: nat)
      requires Wired() && disk != null
      modifies dma, mem.data, disk.data
      ensures Ran(k, failed) == Plan(old(dma.channels[2].count), disk.geo, c, h, r, eot)
      ensures var byCount, byEot := (old(dma.channels[2].count) + 1 + 511) / 512, if eot < r then 1 else eot - r + 1;
              var byTrack := if ValidChs(disk.geo, c, h, r) then disk.geo.sectors - r + 1 else 0;
              && k == Min(Min(byCount, byEot), byTrack)
              && (failed <==> byTrack < byCount && byTrack < byEot)
      ensures var j := T.JobFor(write, mem.rom, disk.geo, c, h, r);
              T.Fits(j, old(MediaNow())) && MediaNow() == T.Passes(j, old(MediaNow()), PassCount(Ran(k, failed)))
    {
      ghost var m := MediaNow();
      ghost var j := T.JobFor(write, mem.rom, disk.geo, c, h, r);
      ghost var stop, track := Stop(m.dma.channels[2].count, r, eot), T.TrackLimit(disk.geo, c, h, r);
      T.JobFits(write, mem.rom, disk.geo, c, h, r, m);
      var s, done := r, false;
      failed, k := false, 0;
      while !failed && !done
        invariant !failed && !done ==> s == r + k
        invariant EndsAt(stop, track, k, failed, done)
        invariant MediaNow() == T.Passes(j, m, if failed then k + 1 else k)
        decreases !failed && !done, stop - k
      {
        failed, done := Turn(write, c, h, r, s, eot, m, k);
        if !failed {
          k := k + 1;
          s := s + 1;
        }
      }
    }

    /** The outcome a data command with these bytes will have. */
    ghost function Outlook(bytes: seq<Byte>): Outcome
      requires disk != null ==> disk.Valid()
      reads this`disk, dma
    {
      if |bytes| < 7 then NoDisk
      else PlanOf(bytes, dma.channels[2].count, if disk != null then Some(disk.geo) else None)
    }

    /** The data phase of the collected command on the inserted disk. */
    method MoveData(write: bool) returns (failed: bool, k: nat)
      requires Wired() && disk != null
      requires Complete(State()) && IsData(cmd[0]) && write == (cmd[0] % 0x20 == 0x05)
      modifies dma, mem.data, disk.data
      ensures Ran(k, failed) == old(Outlook(cmd))
      ensures MediaNow() == MediaAfter(cmd, mem.rom, disk.geo, old(MediaNow()))
    {
      failed, k := RunSectors(write, cmd[2], cmd[3], cmd[4], cmd[6]);
    }

    /** Status registers, present cylinder and result bytes at the end of a data command. */
    method Conclude(abnormal: bool, next: Byte, ghost o: Outcome)
      requires irq6.Valid() && Complete(State()) && IsData(cmd[0])
      requires Abnormal(o) == abnormal && NextSector(cmd[4], o) == next
      modifies this`st0, this`pcn, this`intPending, this`result, this`resIdx, this`phase, irq6
      ensures State() == DataDone(old(State()), o)
      ensures irq6.Valid() && irq6.Model() == Raised(old(irq6.Model()), State(), true)
    {
      var drive := cmd[1] % 4;
      var status0 := drive + 4 * (cmd[1] / 4 % 2);
      var status1 := 0;
      if abnormal {
        status0 := status0 + 0x40;
        status1 := 0x04;
      }
      st0 := status0;
      pcn := pcn[drive := cmd[2]];
      intPending := true;
      SetResult([status0, status1, 0, cmd[2], cmd[3], next, cmd[5]], true);
    }

    /** Read Data and Write Data with the collected parameters. */
    method ReadWrite(write: bool)
      requires Wired() && Complete(State()) && IsData(cmd[0]) && write == (cmd[0] % 0x20 == 0x05)
      modifies this`st0, this`pcn, this`intPending, this`result, this`resIdx, this`phase,
               dma, mem.data, irq6, Image()
      ensures State() == DataDone(old(State()), old(Outlook(cmd)))
      ensures disk != null ==> MediaNow() == MediaAfter(cmd, mem.rom, disk.geo, old(MediaNow()))
      ensures disk == null ==> unchanged(dma, mem.data)
      ensures irq6.Valid() && irq6.Model() == Raised(old(irq6.Model()), State(), true)
    {
      ghost var o := Outlook(cmd);
      if disk == null {
        Conclude(true, cmd[4], o);
        return;
      }
      var failed, k := MoveData(write);
      var last := cmd[4] as int;
      if k > 0 {
        last := last + k - 1;
      }
      Conclude(failed, Low(last + 1), o);
    }

    // ----- The other commands -----

    method SenseInterruptStatus()
      requires irq6.Valid()
      modifies this`intPending, this`result, this`resIdx, this`phase, irq6
      ensures State() == SenseInterrupt(old(State()))
      ensures irq6.Valid() && irq6.Model() == old(irq6.Model())
    {
      if intPending {
        intPending := false;
        SetResult([st0, pcn[st0 % 4]], false);
        return;
      }
      SetResult([0x80], false);
    }

    method ReadSectorId()
      requires irq6.Valid() && 2 <= |cmd|
      modifies this`st0, this`intPending, this`result, this`resIdx, this`phase, irq6
      ensures State() == ReadId(old(State()))
      ensures irq6.Valid() && irq6.Model() == Raised(old(irq6.Model()), State(), true)
    {
      var drive := cmd[1] % 4;
      var head := cmd[1] / 4 % 2;
      st0 := drive + 4 * head;
      intPending := true;
      SetResult([st0, 0, 0, pcn[drive], head, 1, 2], true);
    }

    /** The commands that move no sector data. */
    method ExecuteControl()
      requires irq6.Valid() && Complete(State()) && !IsData(cmd[0])
      modifies this`st0, this`pcn, this`intPending, this`result, this`resIdx, this`phase, irq6
      ensures forall o: Outcome :: State() == Execute(old(State()), o)
      ensures irq6.Valid() && irq6.Model() == Raised(old(irq6.Model()), State(), Interrupts(cmd[0]))
    {
      match cmd[0] % 0x20
      case 0x03 =>
        phase := 0;
      case 0x07 =>
        var drive := cmd[1] % 4;
        pcn := pcn[drive := 0];
        FinishSeek(drive);
      case 0x0F =>
        var drive := cmd[1] % 4;
        pcn := pcn[drive := cmd[2]];
        FinishSeek(drive);
      case 0x08 =>
        SenseInterruptStatus();
      case 0x04 =>
        var drive := cmd[1] % 4;
        var st3 := drive + 0x20;
        if pcn[drive] == 0 {
          st3 := st3 + 0x10;
        }
        SetResult([st3], false);
      case 0x0A =>
        ReadSectorId();
      case _ =>
        SetResult([0x80], false);
    }

    method ExecuteCommand()
      requires Wired() && Complete(State())
      modifies this`st0, this`pcn, this`intPending, this`result, this`resIdx, this`phase,
               dma, mem.data, irq6, Image()
      ensures Valid() && State() == Execute(old(State()), old(Outlook(cmd)))
      ensures disk != null ==> MediaNow() == MediaAfter(cmd, mem.rom, disk.geo, old(MediaNow()))
      ensures disk == null ==> unchanged(dma, mem.data)
      ensures irq6.Model() == Raised(old(irq6.Model()), State(), Interrupts(cmd[0]))
    {
      ExecuteSound(State(), Outlook(cmd));
      if cmd[0] % 0x20 == 0x06 {
        ReadWrite(false);
      } else if cmd[0] % 0x20 == 0x05 {
        ReadWrite(true);
      } else {
        ExecuteControl();
      }
    }

    // ----- Ports -----

    method WriteDataPort(value: Byte)
      requires Valid()
      modifies this`phase, this`cmd, this`needed, this`result, this`resIdx, this`pcn, this`st0, this`intPending,
               dma, mem.data, irq6, Image()
      ensures Valid() && State() == WriteData(old(State()), value, old(Outlook(Collected(State(), value).cmd)))
      ensures disk != null ==>
        MediaNow() == if Executes(old(State()), value)
                      then MediaAfter(cmd, mem.rom, disk.geo, old(MediaNow())) else old(MediaNow())
      ensures disk == null || !Executes(old(State()), value) ==> unchanged(dma, mem.data)
      ensures irq6.Model() ==
        Raised(old(irq6.Model()), State(), Executes(old(State()), value) && Interrupts(cmd[0]))
    {
      if phase == 0 {
        cmd := [value];
        needed := 1 + ParamCount(value);
        phase := 1;
      } else if phase == 1 {
        cmd := cmd + [value];
      } else {
        return;
      }
      if phase == 1 && |cmd| >= needed {
        ExecuteCommand();
      }
    }

    method ReadDataPort() returns (b: Byte)
      requires Valid()
      modifies this`resIdx, this`phase
      ensures Valid() && (State(), b) == ReadData(old(State()))
    {
      if phase != 2 || resIdx >= |result| {
        return 0x00;
      }
      b := result[resIdx];
      resIdx := resIdx + 1;
      if resIdx >= |result| {
        phase := 0;
      }
    }

    method WriteDorPort(value: Byte)
      requires Valid()
      modifies this`dor, this`phase, this`resIdx, this`st0, this`intPending, irq6
      ensures Valid() && State() == WriteDor(old(State()), value)
      ensures irq6.Model() == Raised(old(irq6.Model()), State(), LeavesReset(old(State()), value))
    {
      var wasReset := !Bit(dor, 0x04);
      dor := value;
      if wasReset && Bit(value, 0x04) {
        phase, resIdx := 0, 0;
        st0 := 0xC0;
        intPending := true;
        FireIRQ();
      }
    }

    method In8(port: Word) returns (b: Byte)
      requires Valid()
      modifies this`resIdx, this`phase
      ensures Valid()
      ensures port % 8 == 4 ==> State() == old(State()) && b == Msr(State())
      ensures port % 8 == 5 ==> (State(), b) == ReadData(old(State()))
      ensures port % 8 != 4 && port % 8 != 5 ==> State() == old(State()) && b == 0xFF
    {
      if port % 8 == 4 {
        b := 0x80;
        if phase == 2 {
          b := b + 0x40;
        }
        if phase != 0 {
          b := b + 0x10;
        }
      } else if port % 8 == 5 {
        b := ReadDataPort();
      } else {
        b := 0xFF;
      }
    }

    method Out8(port: Word, value: Byte)
      requires Valid()
      modifies this`dor, this`phase, this`cmd, this`needed, this`result, this`resIdx, this`pcn, this`st0,
               this`intPending, dma, mem.data, irq6, Image()
      ensures Valid()
      ensures State() ==
        if port % 8 == 2 then WriteDor(old(State()), value)
        else if port % 8 == 5 then WriteData(old(State()), value, old(Outlook(Collected(State(), value).cmd)))
        else old(State())
      ensures disk != null ==>
        MediaNow() == if port % 8 == 5 && Executes(old(State()), value)
                      then MediaAfter(cmd, mem.rom, disk.geo, old(MediaNow())) else old(MediaNow())
      ensures disk == null || port % 8 != 5 || !Executes(old(State()), value) ==> unchanged(dma, mem.data)
      ensures irq6.Model() ==
        Raised(old(irq6.Model()), State(),
               if port % 8 == 5 then Executes(old(State()), value) && Interrupts(cmd[0])
               else port % 8 == 2 && LeavesReset(old(State()), value))
    {
      if port % 8 == 2 {
        WriteDorPort(value);
      } else if port % 8 == 5 {
        WriteDataPort(value);
      }
    }
  }
}
