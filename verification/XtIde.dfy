/**
 The XT-IDE card: a 16-bit ATA channel behind 8-bit ports. The high byte of a data word
 passes through a latch, written before and read after the low byte.
 */
module XtIde {
  import opened Bytes
  import opened HardDisk
  import opened Ata

  datatype Card = Card(ata: Regs, drive: Option<Store>, high: Byte)

  ghost predicate Sound(c: Card) {
    Valid(c.ata, c.drive)
  }

  function OutPort(c: Card, port: Word, v: Byte): (c': Card)
    requires Sound(c)
    ensures Sound(c')
  {
    var p := port % 0x10;
    if p == 0 then
      WriteKeepsValid(c.ata, c.drive, Join(v, c.high));
      var (ata, drive) := WriteWord(c.ata, c.drive, Join(v, c.high));
      c.(ata := ata, drive := drive)
    else if p < 8 then
      RegKeepsValid(c.ata, c.drive, p, v);
      c.(ata := WriteReg(c.ata, c.drive, p, v))
    else if p == 8 then c.(high := v)
    else if p == 0xE then c.(ata := DevCtl(c.ata, v))
    else c
  }

  function InPort(c: Card, port: Word): (r: (Card, Byte))
    requires Sound(c)
    ensures Sound(r.0)
  {
    var p := port % 0x10;
    if p == 0 then
      ReadKeepsValid(c.ata, c.drive);
      var (ata, w) := ReadWord(c.ata);
      (c.(ata := ata, high := High(w)), Low(w))
    else if p < 8 then (c, ReadReg(c.ata, c.drive, p))
    else if p == 8 then (c, c.high)
    else if p == 0xE then (c, Status(c.ata, c.drive))
    else (c, 0xFF)
  }

  class XTIDE {
    const ata: ATA
    var dataHigh: Byte

    ghost predicate Ok()
      reads this, ata, ata.Image()
    {
      ata.Ok()
    }

    ghost function View(): Card
      reads this, ata, ata.Image()
    {
      Card(ata.State(), ata.Drive(), dataHigh)
    }

    constructor (disk: HardDisk?)
      requires disk != null ==> disk.Valid()
      ensures Ok() && fresh(ata) && ata.disk == disk
      ensures View() == Card(POWER_ON, if disk != null then Some(disk.View()) else None, 0)
    {
      ata := new ATA(disk);
      dataHigh := 0;
    }

    method In8(port: Word) returns (b: Byte)
      requires Ok()
      modifies this, ata
      ensures Ok() && ata.disk == old(ata.disk) && (View(), b) == InPort(old(View()), port)
    {
      var p := port % 0x10;
      if p == 0 {
        var w := ata.ReadData16();
        dataHigh := High(w);
        b := Low(w);
      } else if p < 8 {
        b := ata.ReadRegister(p);
      } else if p == 8 {
        b := dataHigh;
      } else if p == 0xE {
        b := ata.ReadRegister(7);
      } else {
        b := 0xFF;
      }
    }

    method Out8(port: Word, value: Byte)
      requires Ok()
      modifies this, ata, ata.Image()
      ensures Ok() && ata.disk == old(ata.disk) && View() == OutPort(old(View()), port, value)
    {
      var p := port % 0x10;
      if p == 0 {
        ata.WriteData16(Join(value, dataHigh));
      } else if p < 8 {
        ata.WriteRegister(p, value);
      } else if p == 8 {
        dataHigh := value;
      } else if p == 0xE {
        ata.WriteDevCtl(value);
      }
    }
  }

  // ----- A driver's transfers -----

  /** One word out: high byte to the latch, then the low byte. */
  function OutWord(c: Card, lo: Byte, hi: Byte): (c': Card)
    requires Sound(c)
    ensures Sound(c')
  {
    OutPort(OutPort(c, 0x8, hi), 0x0, lo)
  }

  /** Words out, from pairs of bytes. */
  function OutBytes(c: Card, data: seq<Byte>): (c': Card)
    requires Sound(c) && |data| % 2 == 0
    ensures Sound(c')
    decreases |data|
  {
    if data == [] then c
    else OutWord(OutBytes(c, data[..|data| - 2]), data[|data| - 2], data[|data| - 1])
  }

  /** One word in: low byte from the data port, high byte from the latch. */
  function InWord(c: Card): (r: (Card, seq<Byte>))
    requires Sound(c)
    ensures Sound(r.0)
  {
    var (c1, lo) := InPort(c, 0x0);
    var (c2, hi) := InPort(c1, 0x8);
    (c2, [lo, hi])
  }

  function InBytes(c: Card, n: nat): (r: (Card, seq<Byte>))
    requires Sound(c)
    ensures Sound(r.0)
    decreases n
  {
    if n == 0 then (c, [])
    else
      var (c1, before) := InBytes(c, n - 1);
      var (c2, word) := InWord(c1);
      (c2, before + word)
  }

  /** A driver addresses sectors of the master by block or by cylinder, head and sector. */
  datatype Address = ByLba(lba: int) | ByChs(cyl: int, head: int, sector: int)

  /** The address fits the registers; sectors count from one. */
  predicate Encodable(a: Address) {
    match a
    case ByLba(lba) => 0 <= lba < 0x1000_0000
    case ByChs(c, h, s) => 0 <= c < 0x1_0000 && 0 <= h < HEADS && 1 <= s <= 0xFF
  }

  /** The block an address means. */
  function Block(a: Address): int {
    match a
    case ByLba(lba) => lba
    case ByChs(c, h, s) => (c * HEADS + h) * SPT + s - 1
  }

  /** The address register values: sector, cylinder low and high, drive and head. */
  function Parts(a: Address): (Byte, Byte, Byte, Byte)
    requires Encodable(a)
  {
    match a
    case ByLba(lba) =>
      (lba % 0x100, lba / 0x100 % 0x100, lba / 0x1_0000 % 0x100, 0xE0 + lba / 0x100_0000)
    case ByChs(c, h, s) => (s, c % 0x100, c / 0x100, 0xA0 + h)
  }

  /** A request the registers can express. */
  predicate Request(a: Address, n: int) {
    Encodable(a) && 1 <= n <= 256
  }

  /** Writes the command block for `n` sectors, then the command. */
  function Issue(c: Card, cmd: Byte, a: Address, n: int): (c': Card)
    requires Sound(c) && Request(a, n)
    ensures Sound(c')
  {
    var (p3, p4, p5, p6) := Parts(a);
    var c := OutPort(c, 0x2, n % 0x100);
    var c := OutPort(c, 0x3, p3);
    var c := OutPort(c, 0x4, p4);
    var c := OutPort(c, 0x5, p5);
    var c := OutPort(c, 0x6, p6);
    OutPort(c, 0x7, cmd)
  }

  /** Ready with a word to move: DRDY, DSC and DRQ. */
  predicate DataRequested(c: Card) {
    Status(c.ata, c.drive) == 0x58
  }

  /** The status and error bytes a driver reads. */
  predicate Answers(c: Card, status: Byte, error: Byte) {
    Status(c.ata, c.drive) == status && c.ata.errReg == error
  }

  /**
   The status is what the driver reads at ports 7 and 14 and the error at port 1, without
   side effects; the slave and a missing drive read as zero status.
   */
  lemma StatusPorts(c: Card)
    requires Sound(c)
    ensures InPort(c, 0x7) == (c, Status(c.ata, c.drive)) && InPort(c, 0xE) == (c, Status(c.ata, c.drive))
    ensures InPort(c, 0x1) == (c, c.ata.errReg)
    ensures Status(c.ata, c.drive) == if c.drive.Some? && !Bit(c.ata.drvHead, 0x10) then c.ata.status else 0
  {
  }

  /** The address and count registers read back what was written, each its own. */
  lemma RegistersReadBack(c: Card, p: Word, v: Byte, q: Word)
    requires Sound(c) && 2 <= p <= 6 && 2 <= q <= 6
    ensures InPort(OutPort(c, p, v), q) == (OutPort(c, p, v), if q == p then v else InPort(c, q).1)
  {
    RegPort(c, p, v);
    RegIn(c, q);
    RegIn(OutPort(c, p, v), q);
  }

  lemma RegIn(c: Card, p: Word)
    requires Sound(c) && 1 <= p <= 7
    ensures InPort(c, p) == (c, ReadReg(c.ata, c.drive, p))
  {
    assert p % 0x10 == p;
  }

  /** SRST in the device control register leaves the master ready, with diagnostic code 1 and nothing pending. */
  lemma SoftResets(c: Card, v: Byte)
    requires Sound(c) && Bit(v, 0x04) && Present(c.ata, c.drive)
    ensures var c' := OutPort(c, 0xE, v);
            Answers(c', 0x50, 0x01) && !c'.ata.writing && InPort(c', 0x0).1 == 0xFF && c'.drive == c.drive
  {
  }

  predicate ReadCode(cmd: Byte) {
    cmd in {0x20, 0x21, 0xC4}
  }

  predicate WriteCode(cmd: Byte) {
    cmd in {0x30, 0x31, 0xC5}
  }

  /** Commands that report success and do nothing else: recalibrate, diagnostics, set, verify, power and flush. */
  predicate QuietCode(cmd: Byte) {
    0x10 <= cmd <= 0x1F || cmd in {0x40, 0x41, 0x90, 0x91, 0xC6, 0xE0, 0xE1, 0xE7, 0xEA, 0xEF}
  }

  /**
   What every command code answers on a present drive: 0x58 with a buffer open, 0x50 for
   the quiet ones, 0x51 with IDNF (0x10) out of range and with ABRT (0x04) if unknown.
   */
  lemma CommandAnswers(c: Card, cmd: Byte)
    requires Sound(c) && Present(c.ata, c.drive)
    ensures var c' := OutPort(c, 0x7, cmd);
            var inside := CurrentLba(c.ata) + SectorCount(c.ata) <= c.drive.value.sectors;
            && c'.drive == c.drive
            && if cmd == 0xEC || WriteCode(cmd) || (ReadCode(cmd) && inside) then Answers(c', 0x58, 0)
               else if ReadCode(cmd) then Answers(c', 0x51, 0x10)
               else if QuietCode(cmd) then Answers(c', 0x50, if cmd == 0x90 then 1 else 0)
               else Answers(c', 0x51, 0x04)
  {
    RegPort(c, 0x7, cmd);
    AcceptsExactly(c.drive.value.sectors, CurrentLba(c.ata), SectorCount(c.ata));
  }

  /** Ports 9 to 13 and 15 read as 0xFF and take no writes; the latch reads back. */
  lemma OtherPorts(c: Card, port: Word, v: Byte)
    requires Sound(c)
    ensures port in {0x9, 0xA, 0xB, 0xC, 0xD, 0xF} ==> InPort(c, port) == (c, 0xFF) && OutPort(c, port, v) == c
    ensures InPort(OutPort(c, 0x8, v), 0x8).1 == v && OutPort(c, 0x8, v).ata == c.ata
  {
  }

  /** Without a drive, or with the slave selected, a command leaves zero in both. */
  lemma AbsentAnswers(c: Card, cmd: Byte)
    requires Sound(c) && !Present(c.ata, c.drive)
    ensures Answers(OutPort(c, 0x7, cmd), 0, 0) && OutPort(c, 0x7, cmd).drive == c.drive
  {
    RegPort(c, 0x7, cmd);
  }

  /** The registers after the command block was written. */
  function AddressRegs(r: Regs, a: Address, n: int): Regs
    requires Request(a, n)
  {
    var (p3, p4, p5, p6) := Parts(a);
    r.(secCount := n % 0x100, lba0 := p3, lba1 := p4, lba2 := p5, drvHead := p6)
  }

  /** A 28-bit block address is its four register parts. */
  lemma AddressParts(lba: int)
    requires 0 <= lba < 0x1000_0000
    ensures 0 <= lba / 0x100_0000 < 0x10
    ensures lba / 0x100_0000 * 0x100_0000 + lba / 0x1_0000 % 0x100 * 0x1_0000
            + lba / 0x100 % 0x100 * 0x100 + lba % 0x100 == lba
  {
    var x := lba / 0x100;
    var y := x / 0x100;
    assert lba == x * 0x100 + lba % 0x100;
    assert x == y * 0x100 + x % 0x100;
    assert y == y / 0x100 * 0x100 + y % 0x100;
    assert lba / 0x1_0000 == y && lba / 0x100_0000 == y / 0x100;
  }

  lemma DriveBits(top: int)
    requires 0 <= top < 0x10
    ensures (0xE0 + top) % 0x10 == top && Bit(0xE0 + top, 0x40) && !Bit(0xE0 + top, 0x10)
    ensures (0xA0 + top) % 0x10 == top && !Bit(0xA0 + top, 0x40) && !Bit(0xA0 + top, 0x10)
  {
  }

  /** They address the block meant, in either mode, and the master. */
  lemma AddressRegsAddress(r: Regs, d: Option<Store>, a: Address, n: int)
    requires Request(a, n) && d.Some?
    ensures var r' := AddressRegs(r, a, n);
            CurrentLba(r') == Block(a) && SectorCount(r') == n && Present(r', d)
  {
    match a
    case ByLba(lba) =>
      AddressParts(lba);
      DriveBits(lba / 0x100_0000);
    case ByChs(c, h, s) =>
      DriveBits(h);
      assert Join(c % 0x100, c / 0x100) == c;
  }

  lemma RegPort(c: Card, p: Word, v: Byte)
    requires Sound(c) && 1 <= p <= 7
    ensures OutPort(c, p, v) == c.(ata := WriteReg(c.ata, c.drive, p, v))
  {
    assert p % 0x10 == p;
  }

  lemma IssueRuns(c: Card, cmd: Byte, a: Address, n: int)
    requires Sound(c) && Request(a, n)
    ensures Issue(c, cmd, a, n) == c.(ata := Command(AddressRegs(c.ata, a, n), c.drive, cmd))
  {
    var (p3, p4, p5, p6) := Parts(a);
    var c2 := OutPort(c, 0x2, n % 0x100);
    RegPort(c, 0x2, n % 0x100);
    var c3 := OutPort(c2, 0x3, p3);
    RegPort(c2, 0x3, p3);
    var c4 := OutPort(c3, 0x4, p4);
    RegPort(c3, 0x4, p4);
    var c5 := OutPort(c4, 0x5, p5);
    RegPort(c4, 0x5, p5);
    var c6 := OutPort(c5, 0x6, p6);
    RegPort(c5, 0x6, p6);
    RegPort(c6, 0x7, cmd);
    assert c6.ata == AddressRegs(c.ata, a, n);
  }

  // ----- Writing -----

  lemma WordOut(c: Card, lo: Byte, hi: Byte)
    requires Sound(c)
    ensures var (ata, drive) := WriteWord(c.ata, c.drive, Join(lo, hi));
            OutWord(c, lo, hi) == Card(ata, drive, hi)
  {
    assert OutPort(c, 0x8, hi) == c.(high := hi);
  }

  /** A write in progress at a position of its buffer. */
  ghost predicate Writing(c: Card, w: Card, data: seq<Byte>)
    requires Sound(w)
  {
    && w.drive == c.drive
    && w.ata == c.ata.(buf := w.ata.buf, bufPos := |data|)
    && |w.ata.buf| == |c.ata.buf| && |data| <= |w.ata.buf| && w.ata.buf[..|data|] == data
  }

  lemma WordOutInside(c: Card, w: Card, data: seq<Byte>, lo: Byte, hi: Byte)
    requires Sound(c) && c.ata.writing && Sound(w) && Writing(c, w, data)
    requires |data| + 2 < |c.ata.buf|
    ensures Writing(c, OutWord(w, lo, hi), data + [lo, hi])
  {
    WordOut(w, lo, hi);
  }

  /** Before the last word a write only collects bytes, with the status unchanged. */
  lemma {:induction false} OutBytesCollects(c: Card, data: seq<Byte>)
    requires Sound(c) && c.ata.writing && c.ata.bufPos == 0
    requires |data| % 2 == 0 && |data| < |c.ata.buf|
    ensures Writing(c, OutBytes(c, data), data)
    decreases |data|
  {
    if data == [] {
    } else {
      var n := |data| - 2;
      OutBytesCollects(c, data[..n]);
      WordOutInside(c, OutBytes(c, data[..n]), data[..n], data[n], data[n + 1]);
      assert data == data[..n] + [data[n], data[n + 1]];
    }
  }

  /** The drive after a write of these bytes: exactly its sectors, or none if they do not fit. */
  function Stored(d: Option<Store>, lba: int, n: int, data: seq<Byte>): Option<Store>
    requires d.Some? && Sized(d.value) && 0 <= lba < 0x1_0000_0000 && 0 <= n && |data| == n * SECTOR
  {
    if lba + n <= d.value.sectors then Some(Write(d.value, lba, data)) else d
  }

  /** Done, or nothing done because the sectors are not on the disk. */
  predicate Finished(c: Card, inside: bool) {
    if inside then Answers(c, 0x50, 0) else Answers(c, 0x51, 0x10)
  }

  lemma LastWordOut(c: Card, w: Card, n: int, data: seq<Byte>, lo: Byte, hi: Byte, after: Card)
    requires Sound(c) && c.ata.writing && Sound(w) && Writing(c, w, data)
    requires 1 <= n && |data| + 2 == |c.ata.buf| == n * SECTOR
    requires Present(c.ata, c.drive) && c.ata.errReg == 0 && after == OutWord(w, lo, hi)
    ensures Finished(after, c.ata.writeLba + n <= c.drive.value.sectors)
    ensures after.drive == Stored(c.drive, c.ata.writeLba, n, data + [lo, hi])
  {
    WordOut(w, lo, hi);
    assert w.ata.buf[|data| := lo][|data| + 1 := hi] == data + [lo, hi];
    assert |c.ata.buf| / SECTOR == n;
  }

  /** DRQ is set before each word of the data goes out. */
  ghost predicate RequestsEachWord(w: Card, data: seq<Byte>)
    requires Sound(w)
  {
    forall k | 0 <= k < |data| && k % 2 == 0 :: DataRequested(OutBytes(w, data[..k]))
  }

  /** A write is open for exactly `len` bytes at a block. */
  ghost predicate OpenForWrite(w: Card, lba: int, len: int) {
    && Sound(w) && Present(w.ata, w.drive) && w.ata.writing && w.ata.bufPos == 0
    && w.ata.writeLba == lba && |w.ata.buf| == len
    && w.ata.status == TRANSFER && w.ata.errReg == 0
  }

  lemma BeginsWriting(c: Card, cmd: Byte, a: Address, n: int)
    requires Sound(c) && c.drive.Some? && Request(a, n) && WriteCode(cmd)
    ensures OpenForWrite(Issue(c, cmd, a, n), Block(a), n * SECTOR)
    ensures Issue(c, cmd, a, n).drive == c.drive
  {
    IssueRuns(c, cmd, a, n);
    AddressRegsAddress(c.ata, c.drive, a, n);
    assert Issue(c, cmd, a, n).ata == BeginWriting(AddressRegs(c.ata, a, n));
  }

  lemma WritingRequests(w: Card, lba: int, data: seq<Byte>)
    requires OpenForWrite(w, lba, |data|)
    ensures RequestsEachWord(w, data)
  {
    forall k | 0 <= k < |data| && k % 2 == 0 ensures DataRequested(OutBytes(w, data[..k])) {
      OutBytesCollects(w, data[..k]);
    }
  }

  lemma OutBytesStep(c: Card, data: seq<Byte>, lo: Byte, hi: Byte)
    requires Sound(c) && |data| % 2 == 0
    ensures OutBytes(c, data + [lo, hi]) == OutWord(OutBytes(c, data), lo, hi)
  {
    ghost var all := data + [lo, hi];
    assert all[..|all| - 2] == data && all != [];
  }

  /** The card before the last word of the data went out. */
  lemma BeforeLast(w: Card, data: seq<Byte>) returns (before: Card, front: seq<Byte>, lo: Byte, hi: Byte)
    requires Sound(w) && w.ata.writing && w.ata.bufPos == 0
    requires 2 <= |data| == |w.ata.buf| && |data| % 2 == 0
    ensures data == front + [lo, hi] && Sound(before) && Writing(w, before, front)
    ensures OutBytes(w, data) == OutWord(before, lo, hi)
  {
    front, lo, hi := data[..|data| - 2], data[|data| - 2], data[|data| - 1];
    before := OutBytes(w, front);
    OutBytesCollects(w, front);
    OutBytesStep(w, front, lo, hi);
  }

  lemma WritingCommits(w: Card, lba: int, n: int, data: seq<Byte>, after: Card)
    requires OpenForWrite(w, lba, |data|) && 1 <= n && |data| == n * SECTOR && after == OutBytes(w, data)
    ensures Finished(after, lba + n <= w.drive.value.sectors)
    ensures after.drive == Stored(w.drive, lba, n, data)
  {
    ghost var before, front, lo, hi := BeforeLast(w, data);
    LastWordOut(w, before, n, front, lo, hi, after);
  }

  /** The disk with the bytes of `n` sectors at a block replaced. */
  lemma StoredStretch(d: Store, lba: int, n: int, data: seq<Byte>)
    requires Sized(d) && 0 <= lba < 0x1_0000_0000 && 0 <= n && |data| == n * SECTOR && lba + n <= d.sectors
    ensures Stored(Some(d), lba, n, data)
            == Some(Store(d.sectors, d.bytes[..512 * lba] + data + d.bytes[512 * (lba + n)..]))
  {
  }

  /** WRITE SECTORS and all its words. */
  function WriteOut(c: Card, cmd: Byte, a: Address, n: int, data: seq<Byte>): Card
    requires Sound(c) && Request(a, n) && |data| == n * SECTOR
  {
    OutBytes(Issue(c, cmd, a, n), data)
  }

  /**
   A write command through the 8-bit ports: DRQ is set until the last word, and then the
   disk holds the bytes in exactly those sectors, or is unchanged and IDNF is reported.
   */
  lemma WriteSectors(c: Card, cmd: Byte, a: Address, n: int, data: seq<Byte>)
    requires Sound(c) && c.drive.Some? && Request(a, n) && |data| == n * SECTOR && WriteCode(cmd)
    ensures RequestsEachWord(Issue(c, cmd, a, n), data)
    ensures var inside, d := Block(a) + n <= c.drive.value.sectors, c.drive.value;
            var c' := WriteOut(c, cmd, a, n, data);
            && Finished(c', inside)
            && c'.drive == (if inside then Some(Store(d.sectors, d.bytes[..512 * Block(a)] + data
                                                               + d.bytes[512 * (Block(a) + n)..]))
                            else c.drive)
  {
    BeginsWriting(c, cmd, a, n);
    WritingRequests(Issue(c, cmd, a, n), Block(a), data);
    WritingCommits(Issue(c, cmd, a, n), Block(a), n, data, WriteOut(c, cmd, a, n, data));
    if Block(a) + n <= c.drive.value.sectors {
      StoredStretch(c.drive.value, Block(a), n, data);
    }
  }

  // ----- Reading -----

  lemma WordIn(c: Card)
    requires Sound(c) && c.ata.bufPos < |c.ata.buf|
    ensures InWord(c) == (Card(PastWord(c.ata), c.drive, c.ata.buf[c.ata.bufPos + 1]),
                          c.ata.buf[c.ata.bufPos..c.ata.bufPos + 2])
  {
    var b, p := c.ata.buf, c.ata.bufPos;
    assert b[p..p + 2] == [b[p], b[p + 1]];
    assert High(Join(b[p], b[p + 1])) == b[p + 1] && Low(Join(b[p], b[p + 1])) == b[p];
  }

  /** After `n` words were read from an open buffer. */
  ghost predicate HasRead(c: Card, r: (Card, seq<Byte>), n: nat)
    requires 2 * n <= |c.ata.buf|
  {
    && r.1 == c.ata.buf[..2 * n] && r.0.drive == c.drive
    && r.0.ata == c.ata.(bufPos := 2 * n,
                         status := if 0 < n && 2 * n == |c.ata.buf| then READY else TRANSFER)
  }

  lemma HasReadStep(c: Card, r: (Card, seq<Byte>), n: nat)
    requires Sound(c) && 2 * n + 2 <= |c.ata.buf| && Sound(r.0) && HasRead(c, r, n)
    ensures HasRead(c, (InWord(r.0).0, r.1 + InWord(r.0).1), n + 1)
  {
    WordIn(r.0);
    assert c.ata.buf[..2 * n] + c.ata.buf[2 * n..2 * n + 2] == c.ata.buf[..2 * (n + 1)];
  }

  lemma InBytesStep(c: Card, n: nat)
    requires Sound(c)
    ensures InBytes(c, n + 1)
            == (InWord(InBytes(c, n).0).0, InBytes(c, n).1 + InWord(InBytes(c, n).0).1)
  {
  }

  lemma HasReadNext(c: Card, n: nat)
    requires Sound(c) && 2 * n + 2 <= |c.ata.buf| && HasRead(c, InBytes(c, n), n)
    ensures HasRead(c, InBytes(c, n + 1), n + 1)
  {
    HasReadStep(c, InBytes(c, n), n);
    InBytesStep(c, n);
  }

  /** Reading words hands out the buffer in order; DRQ stays set until it is empty. */
  lemma {:induction false} InBytesDelivers(c: Card, n: nat)
    requires Sound(c) && c.ata.bufPos == 0 && 2 * n <= |c.ata.buf| && c.ata.status == TRANSFER
    ensures HasRead(c, InBytes(c, n), n)
    decreases n
  {
    if n != 0 {
      InBytesDelivers(c, n - 1);
      HasReadNext(c, n - 1);
    }
  }

  /** A read is open on these bytes. */
  ghost predicate OpenForRead(r: Card, data: seq<Byte>) {
    Sound(r) && Present(r.ata, r.drive) && r.ata.bufPos == 0 && r.ata.buf == data
    && r.ata.status == TRANSFER && r.ata.errReg == 0
  }

  lemma BeginsReading(c: Card, cmd: Byte, a: Address, n: int)
    requires Sound(c) && c.drive.Some? && Request(a, n) && Block(a) + n <= c.drive.value.sectors && ReadCode(cmd)
    ensures OpenForRead(Issue(c, cmd, a, n), Read(c.drive.value, Block(a), n))
    ensures Issue(c, cmd, a, n).drive == c.drive
  {
    IssueRuns(c, cmd, a, n);
    AddressRegsAddress(c.ata, c.drive, a, n);
    AcceptsExactly(c.drive.value.sectors, Block(a), n);
    assert Issue(c, cmd, a, n).ata == Open(AddressRegs(c.ata, a, n), Read(c.drive.value, Block(a), n));
  }

  /** DRQ is set before each of the words is read, and clear after the last. */
  ghost predicate OffersEachWord(r: Card, words: nat)
    requires Sound(r)
  {
    && (forall k: nat | k < words :: DataRequested(InBytes(r, k).0))
    && Answers(InBytes(r, words).0, 0x50, 0)
  }

  lemma ReadingOffers(r: Card, data: seq<Byte>, words: nat)
    requires OpenForRead(r, data) && |data| == 2 * words && 0 < words
    ensures OffersEachWord(r, words)
    ensures InBytes(r, words).1 == data && InBytes(r, words).0.drive == r.drive
  {
    forall k: nat | k < words ensures DataRequested(InBytes(r, k).0) {
      InBytesDelivers(r, k);
    }
    InBytesDelivers(r, words);
    assert data[..2 * words] == data;
  }

  /** READ SECTORS and all its words. */
  function ReadIn(c: Card, cmd: Byte, a: Address, n: int): (r: (Card, seq<Byte>))
    requires Sound(c) && Request(a, n)
    ensures Sound(r.0)
  {
    InBytes(Issue(c, cmd, a, n), 256 * n)
  }

  /**
   A read command through the 8-bit ports delivers the sectors' bytes, with DRQ set until
   the last word was read, and leaves the disk alone.
   */
  lemma ReadSectors(c: Card, cmd: Byte, a: Address, n: int)
    requires Sound(c) && c.drive.Some? && Request(a, n) && ReadCode(cmd)
    requires Block(a) + n <= c.drive.value.sectors
    ensures OffersEachWord(Issue(c, cmd, a, n), 256 * n)
    ensures ReadIn(c, cmd, a, n).1 == c.drive.value.bytes[512 * Block(a)..512 * (Block(a) + n)]
    ensures ReadIn(c, cmd, a, n).0.drive == c.drive
  {
    BeginsReading(c, cmd, a, n);
    ReadStretch(c.drive.value, Block(a), n);
    ReadingOffers(Issue(c, cmd, a, n), Read(c.drive.value, Block(a), n), 256 * n);
  }

  /**
   What a write command puts on the disk a read command gives back, in LBA or CHS
   addressing or one with the other; other bytes keep their value.
   */
  lemma RoundTrip(c: Card, w: Byte, r: Byte, a: Address, b: Address, n: int, data: seq<Byte>)
    requires Sound(c) && c.drive.Some? && Request(a, n) && Request(b, n) && Block(a) == Block(b)
    requires |data| == n * SECTOR && Block(a) + n <= c.drive.value.sectors && WriteCode(w) && ReadCode(r)
    ensures var written := WriteOut(c, w, a, n, data);
            && ReadIn(written, r, b, n).1 == data && ReadIn(written, r, b, n).0.drive == written.drive
            && OnlySectors(c.drive, written.drive, Block(a), n)
  {
    WriteSectors(c, w, a, n, data);
    ReadSectors(WriteOut(c, w, a, n, data), r, b, n);
  }

  /** The disks differ at most in the bytes of these sectors. */
  ghost predicate OnlySectors(d: Option<Store>, d': Option<Store>, lba: int, n: int) {
    && d.Some? && d'.Some? && |d'.value.bytes| == |d.value.bytes|
    && forall i | 0 <= i < |d.value.bytes| && !(lba * SECTOR <= i < (lba + n) * SECTOR) ::
         d'.value.bytes[i] == d.value.bytes[i]
  }
}
