/**
 An ATA channel with one disk: command block registers and a PIO buffer that is read
 and written a 16-bit word at a time.
 */
module Ata {
  import opened Bytes
  import opened HardDisk

  const DRQ: Byte := 0x08

  /** DRDY and DSC; with ERR after a failed command, with DRQ while a buffer is open. */
  const READY: Byte := 0x50
  const FAILED: Byte := 0x51
  const TRANSFER: Byte := 0x58

  const NOT_FOUND: Byte := 0x10
  const ABORTED: Byte := 0x04

  datatype Regs = Regs(
    features: Byte,
    secCount: Byte,
    lba0: Byte,
    lba1: Byte,
    lba2: Byte,
    drvHead: Byte,
    status: Byte,
    errReg: Byte,
    buf: seq<Byte>,
    bufPos: nat,
    writing: bool,
    writeLba: DWord)

  const POWER_ON := Regs(0, 0, 0, 0, 0, 0, READY, 0, [], 0, false, 0)

  /** The selected drive exists: only the master, and only with a disk. */
  predicate Present(r: Regs, d: Option<Store>) {
    d.Some? && !Bit(r.drvHead, 0x10)
  }

  function SectorCount(r: Regs): (n: int)
    ensures 1 <= n <= 256
  {
    if r.secCount == 0 then 256 else r.secCount
  }

  /** The block addressed by the registers, in LBA or CHS mode. */
  function CurrentLba(r: Regs): DWord {
    if Bit(r.drvHead, 0x40) then
      r.drvHead % 0x10 * 0x100_0000 + r.lba2 * 0x1_0000 + r.lba1 * 0x100 + r.lba0
    else ChsToLba(Join(r.lba1, r.lba2), r.drvHead % 0x10, r.lba0)
  }

  // ----- IDENTIFY DEVICE -----

  const SERIAL := "RNHD00000001"
  const REVISION := "1.0"
  const MODEL := "RetroNet XT-IDE Hard Disk"

  /** A character of a string padded with blanks. */
  function Padded(s: string, i: nat): Byte {
    if i < |s| then Low(s[i] as int) else 0x20
  }

  /** ATA strings keep their bytes swapped in each word. */
  function StringWord(s: string, i: nat): Word {
    Join(Padded(s, 2 * i + 1), Padded(s, 2 * i))
  }

  /** Word `i` of the identification block. */
  function IdentifyWord(total: DWord, i: int): Word {
    if i == 0 then 0x0040
    else if i == 1 || i == 54 then Cylinders(total)
    else if i == 3 || i == 55 then HEADS
    else if i == 6 || i == 56 then SPT
    else if 10 <= i < 20 then StringWord(SERIAL, i - 10)
    else if 23 <= i < 27 then StringWord(REVISION, i - 23)
    else if 27 <= i < 47 then StringWord(MODEL, i - 27)
    else if i == 47 then 0x8000
    else if i == 49 then 0x0200
    else if i == 53 then 0x0001
    else if i == 57 then ToWord(ChsCapacity(total))
    else if i == 58 then ToWord(ChsCapacity(total) / 0x1_0000)
    else if i == 60 then ToWord(total)
    else if i == 61 then ToWord(total / 0x1_0000)
    else 0
  }

  function WordAt(b: seq<Byte>, i: nat): Word
    requires 2 * i + 1 < |b|
  {
    Join(b[2 * i], b[2 * i + 1])
  }

  /** Words as bytes, low byte first. */
  function Flatten(ws: seq<Word>): (b: seq<Byte>)
    ensures |b| == 2 * |ws|
  {
    seq(2 * |ws|, k requires 0 <= k < 2 * |ws| => if k % 2 == 0 then Low(ws[k / 2]) else High(ws[k / 2]))
  }

  lemma FlattenWord(ws: seq<Word>, i: nat)
    requires i < |ws|
    ensures WordAt(Flatten(ws), i) == ws[i]
  {
    assert (2 * i) % 2 == 0 && (2 * i + 1) % 2 == 1 && (2 * i + 1) / 2 == i;
  }

  lemma FlattenUnique(b: seq<Byte>, ws: seq<Word>)
    requires |b| == 2 * |ws| && forall j | 0 <= j < |ws| :: WordAt(b, j) == ws[j]
    ensures b == Flatten(ws)
  {
    forall k | 0 <= k < |b| ensures b[k] == Flatten(ws)[k] {
      assert WordAt(b, k / 2) == ws[k / 2];
      assert k == 2 * (k / 2) + k % 2;
    }
  }

  function IdentifyWords(total: DWord): seq<Word> {
    seq(256, i requires 0 <= i < 256 => IdentifyWord(total, i))
  }

  /** The identification block: 256 words, low byte first. */
  function IdentifyBlock(total: DWord): (b: seq<Byte>)
    ensures |b| == SECTOR
  {
    Flatten(IdentifyWords(total))
  }

  lemma BlockWord(total: DWord, i: nat)
    requires i < 256
    ensures WordAt(IdentifyBlock(total), i) == IdentifyWord(total, i)
  {
    FlattenWord(IdentifyWords(total), i);
  }

  lemma Halves(v: DWord)
    ensures ToWord(v) + 0x1_0000 * ToWord(v / 0x1_0000) == v
  {
  }

  /** The geometry words multiply to the CHS capacity. */
  lemma IdentifyGeometry(total: DWord)
    ensures var b := IdentifyBlock(total);
            && WordAt(b, 1) == WordAt(b, 54) == Cylinders(total)
            && WordAt(b, 3) == WordAt(b, 55) == HEADS && WordAt(b, 6) == WordAt(b, 56) == SPT
  {
    BlockWord(total, 1);
    BlockWord(total, 54);
    BlockWord(total, 3);
    BlockWord(total, 55);
    BlockWord(total, 6);
    BlockWord(total, 56);
  }

  lemma CapacityWords(total: DWord)
    ensures IdentifyWord(total, 57) + 0x1_0000 * IdentifyWord(total, 58) == ChsCapacity(total)
    ensures IdentifyWord(total, 60) + 0x1_0000 * IdentifyWord(total, 61) == total
  {
    GeometryFits(total);
    Halves(ChsCapacity(total));
    Halves(total);
  }

  /** Words 57-58 hold the CHS capacity, the product of the geometry words. */
  lemma IdentifyChsCapacity(total: DWord)
    ensures var b := IdentifyBlock(total);
            WordAt(b, 57) + 0x1_0000 * WordAt(b, 58) == Cylinders(total) * HEADS * SPT
  {
    BlockWord(total, 57);
    BlockWord(total, 58);
    CapacityWords(total);
  }

  /** Words 60-61 hold the number of sectors. */
  lemma IdentifyTotal(total: DWord)
    ensures var b := IdentifyBlock(total);
            WordAt(b, 60) + 0x1_0000 * WordAt(b, 61) == total
  {
    BlockWord(total, 60);
    BlockWord(total, 61);
    CapacityWords(total);
  }

  lemma StringBytes(s: string, i: nat)
    ensures High(StringWord(s, i)) == Padded(s, 2 * i) && Low(StringWord(s, i)) == Padded(s, 2 * i + 1)
  {
  }

  lemma ModelWord(total: DWord, i: nat)
    requires i < 20
    ensures WordAt(IdentifyBlock(total), 27 + i) == StringWord(MODEL, i)
  {
    BlockWord(total, 27 + i);
  }

  /** Undoing the byte swap, the model field is the model name padded with blanks. */
  lemma IdentifyModel(total: DWord, i: nat, w: Word)
    requires i < 20 && w == WordAt(IdentifyBlock(total), 27 + i)
    ensures High(w) == Padded(MODEL, 2 * i) && Low(w) == Padded(MODEL, 2 * i + 1)
  {
    ModelWord(total, i);
    StringBytes(MODEL, i);
  }

  // ----- Register and data accesses -----

  function ClearDrq(s: Byte): Byte {
    if Bit(s, DRQ) then s - DRQ else s
  }

  predicate IsRead(cmd: Byte) {
    cmd == 0x20 || cmd == 0x21 || cmd == 0xC4
  }

  predicate IsWrite(cmd: Byte) {
    cmd == 0x30 || cmd == 0x31 || cmd == 0xC5
  }

  const IDENTIFY: Byte := 0xEC

  /** Commands that only report success. */
  predicate IsSimple(cmd: Byte) {
    0x10 <= cmd <= 0x1F ||
    cmd in {0x91, 0x90, 0xEF, 0xC6, 0x40, 0x41, 0xE0, 0xE1, 0xE7, 0xEA}
  }

  function Zeros(n: nat): (z: seq<Byte>)
    ensures |z| == n && forall i | 0 <= i < n :: z[i] == 0
  {
    seq(n, _ => 0)
  }

  function Open(r: Regs, data: seq<Byte>): Regs {
    r.(buf := data, bufPos := 0, writing := false, status := TRANSFER, errReg := 0)
  }

  function Command(r: Regs, d: Option<Store>, cmd: Byte): Regs {
    if !Present(r, d) then r.(errReg := 0, status := 0)
    else if cmd == IDENTIFY then Open(r, IdentifyBlock(d.value.sectors))
    else if IsRead(cmd) then
      if Accepts(d.value.sectors, CurrentLba(r), SectorCount(r))
      then Open(r, Read(d.value, CurrentLba(r), SectorCount(r)))
      else r.(errReg := NOT_FOUND, status := FAILED)
    else if IsWrite(cmd) then BeginWriting(r)
    else if IsSimple(cmd) then r.(errReg := if cmd == 0x90 then 0x01 else 0, status := READY)
    else r.(errReg := ABORTED, status := FAILED)
  }

  function WriteReg(r: Regs, d: Option<Store>, reg: int, v: Byte): Regs {
    match reg
    case 1 => r.(features := v)
    case 2 => r.(secCount := v)
    case 3 => r.(lba0 := v)
    case 4 => r.(lba1 := v)
    case 5 => r.(lba2 := v)
    case 6 => r.(drvHead := v)
    case 7 => Command(r, d, v)
    case _ => r
  }

  function Status(r: Regs, d: Option<Store>): Byte {
    if Present(r, d) then r.status else 0
  }

  function ReadReg(r: Regs, d: Option<Store>, reg: int): Byte {
    match reg
    case 1 => r.errReg
    case 2 => r.secCount
    case 3 => r.lba0
    case 4 => r.lba1
    case 5 => r.lba2
    case 6 => r.drvHead
    case 7 => Status(r, d)
    case _ => 0
  }

  function DevCtl(r: Regs, v: Byte): Regs {
    if Bit(v, 0x04) then r.(status := READY, errReg := 0x01, buf := [], bufPos := 0, writing := false) else r
  }

  /** The buffer position moved past one word. */
  function PastWord(r: Regs): Regs {
    r.(bufPos := r.bufPos + 2, status := if |r.buf| <= r.bufPos + 2 then ClearDrq(r.status) else r.status)
  }

  function ReadWord(r: Regs): (Regs, Word) {
    if |r.buf| <= r.bufPos + 1 then (r, 0xFFFF) else (PastWord(r), Join(r.buf[r.bufPos], r.buf[r.bufPos + 1]))
  }

  /** The pending sectors fit the disk. */
  predicate Fits(r: Regs, d: Store) {
    var n := |r.buf| / SECTOR;
    0 < n && r.writeLba + n <= d.sectors
  }

  /** A word stored in the buffer; the one that fills it writes the sectors, or fails. */
  function WriteWord(r: Regs, d: Option<Store>, w: Word): (Regs, Option<Store>)
    requires Valid(r, d)
  {
    if !r.writing || |r.buf| <= r.bufPos + 1 then (r, d)
    else
      var r' := r.(buf := r.buf[r.bufPos := Low(w)][r.bufPos + 1 := High(w)], bufPos := r.bufPos + 2);
      if r'.bufPos < |r'.buf| then (r', d)
      else if Fits(r', d.value) then
        (r'.(status := READY, writing := false), Some(Write(d.value, r.writeLba, r'.buf)))
      else (r'.(status := FAILED, errReg := NOT_FOUND, writing := false), d)
  }

  /**
   Invariant of the channel: the buffer is made of whole words and so is the position
   in it; DRQ promises at least one more word; a pending write has a disk and whole
   sectors, and what has not been written yet is zero.
   */
  ghost predicate Valid(r: Regs, d: Option<Store>) {
    && (d.Some? ==> Sized(d.value))
    && |r.buf| % 2 == 0 && r.bufPos % 2 == 0 && r.bufPos <= |r.buf|
    && (Bit(r.status, DRQ) ==> r.bufPos + 2 <= |r.buf|)
    && (r.writing ==>
          && d.Some? && 0 < |r.buf| <= 256 * SECTOR && |r.buf| % SECTOR == 0
          && forall i | r.bufPos <= i < |r.buf| :: r.buf[i] == 0)
  }

  // ----- The invariant is kept -----

  lemma OpenKeepsValid(r: Regs, d: Option<Store>, data: seq<Byte>)
    requires Valid(r, d) && 2 <= |data| && |data| % 2 == 0
    ensures Valid(Open(r, data), d)
  {
  }

  lemma ReportKeepsValid(r: Regs, d: Option<Store>, s: Byte, e: Byte)
    requires Valid(r, d) && !Bit(s, DRQ)
    ensures Valid(r.(status := s, errReg := e), d)
  {
  }

  function BeginWriting(r: Regs): Regs {
    r.(errReg := 0, writeLba := CurrentLba(r), buf := Zeros(SectorCount(r) * SECTOR), bufPos := 0,
       writing := true, status := TRANSFER)
  }

  lemma BeginKeepsValid(r: Regs, d: Option<Store>)
    requires Valid(r, d) && d.Some?
    ensures Valid(BeginWriting(r), d)
  {
  }

  /** The command opens the buffer, for reading or for writing. */
  predicate OpensBuffer(r: Regs, d: Option<Store>, cmd: Byte) {
    Present(r, d) &&
    (cmd == IDENTIFY || IsWrite(cmd) ||
     (IsRead(cmd) && Accepts(d.value.sectors, CurrentLba(r), SectorCount(r))))
  }

  lemma QuietCommand(r: Regs, d: Option<Store>, cmd: Byte)
    requires !OpensBuffer(r, d, cmd)
    ensures var r' := Command(r, d, cmd);
            r' == r.(status := r'.status, errReg := r'.errReg) && !Bit(r'.status, DRQ)
  {
  }

  lemma CommandKeepsValid(r: Regs, d: Option<Store>, cmd: Byte)
    requires Valid(r, d)
    ensures Valid(Command(r, d, cmd), d)
  {
    if Present(r, d) && cmd == IDENTIFY {
      OpenKeepsValid(r, d, IdentifyBlock(d.value.sectors));
    } else if Present(r, d) && IsRead(cmd) && Accepts(d.value.sectors, CurrentLba(r), SectorCount(r)) {
      OpenKeepsValid(r, d, Read(d.value, CurrentLba(r), SectorCount(r)));
    } else if Present(r, d) && IsWrite(cmd) {
      BeginKeepsValid(r, d);
    } else {
      QuietCommand(r, d, cmd);
      ReportKeepsValid(r, d, Command(r, d, cmd).status, Command(r, d, cmd).errReg);
    }
  }

  lemma RegKeepsValid(r: Regs, d: Option<Store>, reg: int, v: Byte)
    requires Valid(r, d)
    ensures Valid(WriteReg(r, d, reg, v), d)
  {
    if reg == 7 {
      CommandKeepsValid(r, d, v);
    }
  }

  lemma ReadKeepsValid(r: Regs, d: Option<Store>)
    requires Valid(r, d)
    ensures Valid(ReadWord(r).0, d)
  {
  }

  lemma WriteKeepsValid(r: Regs, d: Option<Store>, w: Word)
    requires Valid(r, d)
    ensures Valid(WriteWord(r, d, w).0, WriteWord(r, d, w).1)
  {
  }

  // ----- The channel -----

  class ATA {
    var disk: HardDisk?
    var features: Byte
    var secCount: Byte
    var lba0: Byte
    var lba1: Byte
    var lba2: Byte
    var drvHead: Byte
    var status: Byte
    var errReg: Byte
    var buf: seq<Byte>
    var bufPos: nat
    var writing: bool
    var writeLBA: DWord

    ghost function Image(): set<object>
      reads this`disk
    {
      if disk != null then {disk.data} else {}
    }

    ghost predicate Ok()
      reads this, Image()
    {
      (disk != null ==> disk.Valid()) && Valid(State(), Drive())
    }

    ghost function State(): Regs
      reads this
    {
      Regs(features, secCount, lba0, lba1, lba2, drvHead, status, errReg, buf, bufPos, writing, writeLBA)
    }

    ghost function Drive(): Option<Store>
      reads this`disk, Image()
    {
      if disk != null then Some(disk.View()) else None
    }

    constructor (disk: HardDisk?)
      requires disk != null ==> disk.Valid()
      ensures Ok() && State() == POWER_ON && this.disk == disk
    {
      this.disk := disk;
      features, secCount, lba0, lba1, lba2, drvHead := 0, 0, 0, 0, 0, 0;
      status, errReg := READY, 0;
      buf, bufPos, writing, writeLBA := [], 0, false, 0;
    }

    predicate IsPresent()
      reads this
    {
      disk != null && !Bit(drvHead, 0x10)
    }

    method WriteRegister(reg: int, value: Byte)
      requires Ok()
      modifies this
      ensures Ok() && disk == old(disk) && State() == WriteReg(old(State()), Drive(), reg, value)
    {
      RegKeepsValid(State(), Drive(), reg, value);
      match reg
      case 1 => features := value;
      case 2 => secCount := value;
      case 3 => lba0 := value;
      case 4 => lba1 := value;
      case 5 => lba2 := value;
      case 6 => drvHead := value;
      case 7 => RunCommand(value);
      case _ =>
    }

    method ReadRegister(reg: int) returns (b: Byte)
      requires Ok()
      ensures b == ReadReg(State(), Drive(), reg)
    {
      match reg
      case 1 => b := errReg;
      case 2 => b := secCount;
      case 3 => b := lba0;
      case 4 => b := lba1;
      case 5 => b := lba2;
      case 6 => b := drvHead;
      case 7 => b := if IsPresent() then status else 0;
      case _ => b := 0;
    }

    method WriteDevCtl(value: Byte)
      requires Ok()
      modifies this
      ensures Ok() && disk == old(disk) && State() == DevCtl(old(State()), value)
    {
      if Bit(value, 0x04) {
        status := READY;
        errReg := 0x01;
        buf, bufPos, writing := [], 0, false;
      }
    }

    method ReadData16() returns (w: Word)
      requires Ok()
      modifies this
      ensures Ok() && disk == old(disk) && (State(), w) == ReadWord(old(State()))
    {
      if bufPos + 1 >= |buf| {
        if bufPos + 1 == |buf| {
          assert false;  // positions and lengths are even
        }
        return 0xFFFF;
      }
      ReadKeepsValid(State(), Drive());
      w := Join(buf[bufPos], buf[bufPos + 1]);
      bufPos := bufPos + 2;
      if bufPos >= |buf| {
        status := ClearDrq(status);
      }
    }

    method WriteData16(w: Word)
      requires Ok()
      modifies this, Image()
      ensures Ok() && disk == old(disk) && (State(), Drive()) == WriteWord(old(State()), old(Drive()), w)
    {
      if !writing || bufPos + 1 >= |buf| {
        return;
      }
      WriteKeepsValid(State(), Drive(), w);
      buf := buf[bufPos := Low(w)][bufPos + 1 := High(w)];
      bufPos := bufPos + 2;
      if bufPos >= |buf| {
        Commit();
      }
    }

    /** The buffer is full: its sectors go to the disk, all or none. */
    method Commit()
      requires disk != null && disk.Valid() && |buf| % SECTOR == 0
      modifies this`status, this`errReg, this`writing, disk.data
      ensures (State(), disk.View()) ==
        if Fits(old(State()), old(disk.View()))
        then (old(State()).(status := READY, writing := false), Write(old(disk.View()), writeLBA, buf))
        else (old(State()).(status := FAILED, errReg := NOT_FOUND, writing := false), old(disk.View()))
    {
      assert buf[..|buf| / SECTOR * SECTOR] == buf;
      var ok := disk.WriteLBA(writeLBA, buf);
      if !ok {
        errReg, status := NOT_FOUND, FAILED;
      } else {
        status := READY;
      }
      writing := false;
      status := ClearDrq(status);
    }

    method RunCommand(cmd: Byte)
      requires disk != null ==> disk.Valid()
      modifies this
      ensures disk == old(disk) && State() == Command(old(State()), Drive(), cmd)
    {
      errReg := 0;
      if !IsPresent() {
        status := 0;
        return;
      }
      if cmd == IDENTIFY {
        var block := Identify(disk.sectors);
        buf, bufPos, writing := block, 0, false;
        status := TRANSFER;
      } else if IsRead(cmd) {
        ReadSectors();
      } else if IsWrite(cmd) {
        BeginWrite();
      } else {
        Report(cmd);
      }
    }

    /** The commands without data: success, or ABRT for one that is not known. */
    method Report(cmd: Byte)
      modifies this`errReg, this`status
      ensures State() == if IsSimple(cmd)
                         then old(State()).(errReg := if cmd == 0x90 then 0x01 else old(errReg), status := READY)
                         else old(State()).(errReg := ABORTED, status := FAILED)
    {
      if 0x10 <= cmd <= 0x1F {
        status := READY;
      } else if cmd in {0x91, 0x90, 0xEF, 0xC6, 0x40, 0x41, 0xE0, 0xE1, 0xE7, 0xEA} {
        if cmd == 0x90 {
          errReg := 0x01;
        }
        status := READY;
      } else {
        errReg, status := ABORTED, FAILED;
      }
    }

    method ReadSectors()
      requires IsPresent() && disk.Valid()
      modifies this
      ensures disk == old(disk)
      ensures State() ==
        if Accepts(disk.sectors, CurrentLba(old(State())), SectorCount(old(State())))
        then old(State()).(buf := Read(disk.View(), CurrentLba(old(State())), SectorCount(old(State()))),
                           bufPos := 0, writing := false, status := TRANSFER)
        else old(State()).(errReg := NOT_FOUND, status := FAILED)
    {
      var n: int := if secCount == 0 then 256 else secCount;
      var data := disk.ReadLBA(Address(), n);
      if data == None {
        errReg, status := NOT_FOUND, FAILED;
        return;
      }
      buf, bufPos, writing := data.value, 0, false;
      status := TRANSFER;
    }

    method BeginWrite()
      modifies this
      ensures disk == old(disk)
      ensures State() == old(State()).(writeLba := CurrentLba(old(State())), bufPos := 0, writing := true,
                                       buf := Zeros(SectorCount(old(State())) * SECTOR), status := TRANSFER)
    {
      var n: int := if secCount == 0 then 256 else secCount;
      writeLBA := Address();
      buf := Zeros(n * SECTOR);
      bufPos, writing := 0, true;
      status := TRANSFER;
    }

    function Address(): (lba: DWord)
      reads this
      ensures lba == CurrentLba(State())
    {
      if Bit(drvHead, 0x40) then
        drvHead % 0x10 * 0x100_0000 + lba2 * 0x1_0000 + lba1 * 0x100 + lba0
      else
        ToDWord((Join(lba1, lba2) * HEADS + drvHead % 0x10) * SPT + (lba0 - 1))
    }
  }

  // ----- Building the identification block -----

  method SetWord(b: array<Byte>, i: nat, v: Word)
    requires b.Length == SECTOR && i < 256
    modifies b
    ensures forall j | 0 <= j < 256 :: WordAt(b[..], j) == if j == i then v else old(WordAt(b[..], j))
  {
    b[2 * i] := Low(v);
    b[2 * i + 1] := High(v);
  }

  method SetString(b: array<Byte>, start: nat, words: nat, s: string)
    requires b.Length == SECTOR && start + words <= 256
    modifies b
    ensures forall j | 0 <= j < 256 ::
      WordAt(b[..], j) == if start <= j < start + words then StringWord(s, j - start) else old(WordAt(b[..], j))
  {
    for i := 0 to words
      invariant forall j | 0 <= j < 256 ::
        WordAt(b[..], j) == if start <= j < start + i then StringWord(s, j - start) else old(WordAt(b[..], j))
    {
      SetWord(b, start + i, StringWord(s, i));
    }
  }

  /** The words up to the model name. */
  method IdentifyNames(b: array<Byte>, total: DWord)
    requires b.Length == SECTOR && forall j | 0 <= j < 256 :: WordAt(b[..], j) == 0
    modifies b
    ensures forall j | 0 <= j < 256 :: WordAt(b[..], j) == if j < 47 then IdentifyWord(total, j) else 0
  {
    SetWord(b, 0, 0x0040);
    SetWord(b, 1, Cylinders(total));
    SetWord(b, 3, HEADS);
    SetWord(b, 6, SPT);
    SetString(b, 10, 10, SERIAL);
    SetString(b, 23, 4, REVISION);
    SetString(b, 27, 20, MODEL);
  }

  /** The words that describe capabilities, current geometry and capacity. */
  method IdentifyCapacity(b: array<Byte>, total: DWord)
    requires b.Length == SECTOR
    requires forall j | 0 <= j < 256 :: WordAt(b[..], j) == if j < 47 then IdentifyWord(total, j) else 0
    modifies b
    ensures forall j | 0 <= j < 256 :: WordAt(b[..], j) == IdentifyWord(total, j)
  {
    var cap := ChsCapacity(total);
    SetWord(b, 47, 0x8000);
    SetWord(b, 49, 0x0200);
    SetWord(b, 53, 0x0001);
    SetWord(b, 54, Cylinders(total));
    SetWord(b, 55, HEADS);
    SetWord(b, 56, SPT);
    SetWord(b, 57, ToWord(cap));
    SetWord(b, 58, ToWord(cap / 0x1_0000));
    SetWord(b, 60, ToWord(total));
    SetWord(b, 61, ToWord(total / 0x1_0000));
  }

  method Identify(total: DWord) returns (block: seq<Byte>)
    ensures block == IdentifyBlock(total)
  {
    var b := new Byte[SECTOR](_ => 0);
    IdentifyNames(b, total);
    IdentifyCapacity(b, total);
    block := b[..];
    FlattenUnique(block, IdentifyWords(total));
  }
}
