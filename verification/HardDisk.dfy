/** A fixed disk addressed by logical block, with a CHS geometry and a memory backing store. */
module HardDisk {
  import opened Bytes

  const SECTOR := 512

  /** Heads and sectors per track of every geometry. */
  const HEADS := 16
  const SPT := 63

  /** Cylinders of the logical geometry, between 1 and the ATA maximum. */
  function Cylinders(total: DWord): (c: int)
    ensures 1 <= c <= 16383
  {
    var c := total / (HEADS * SPT);
    if c < 1 then 1 else if 16383 < c then 16383 else c
  }

  function ChsCapacity(total: DWord): int {
    Cylinders(total) * HEADS * SPT
  }

  /** The geometry never promises more than the disk holds, from one cylinder on. */
  lemma GeometryFits(total: DWord)
    ensures ChsCapacity(total) <= total <==> 1008 <= total
    ensures ChsCapacity(total) < 0x1_0000_0000
  {
  }

  /** As many whole cylinders of 16 heads and 63 sectors as fit, between 1 and 16383. */
  lemma CylindersFill(total: DWord)
    ensures HEADS == 16 && SPT == 63 && SECTOR == 512
    ensures total < 1008 ==> Cylinders(total) == 1
    ensures 1008 <= total < 16384 * 1008 ==> Cylinders(total) * 1008 <= total < (Cylinders(total) + 1) * 1008
    ensures 16384 * 1008 <= total ==> Cylinders(total) == 16383
  {
  }

  /** The disk: its size in sectors and its bytes. */
  datatype Store = Store(sectors: DWord, bytes: seq<Byte>)

  ghost predicate Sized(d: Store) {
    |d.bytes| == d.sectors * SECTOR
  }

  /** The bounds check as it is computed, in 32-bit arithmetic. */
  predicate Accepts(sectors: DWord, lba: DWord, count: int) {
    !(count <= 0 || ToDWord(count) > ToDWord(sectors - lba) || lba >= sectors)
  }

  /**
   Despite the wrapping subtraction the check accepts exactly the ranges inside the
   disk, for every count that fits 32 bits; a larger count is accepted when its low
   32 bits fit.
   */
  lemma AcceptsExactly(sectors: DWord, lba: DWord, count: int)
    ensures count < 0x1_0000_0000 ==>
              (Accepts(sectors, lba, count) <==> 0 < count && lba + count <= sectors)
    ensures 0x1_0000_0000 <= count ==>
              (Accepts(sectors, lba, count) <==> lba < sectors && lba + ToDWord(count) <= sectors)
  {
  }

  /** A count of 2^32 + 1 sectors passes the check of a one-sector disk. */
  lemma HugeCountAccepted()
    ensures Accepts(1, 0, 0x1_0000_0001)
  {
  }

  /** `len` bytes from an offset; past the end of the store they are zero. */
  function Filled(bytes: seq<Byte>, off: nat, len: nat): seq<Byte> {
    seq(len, i requires 0 <= i => if off + i < |bytes| then bytes[off + i] else 0)
  }

  /** `count` sectors from a block. */
  function Read(d: Store, lba: DWord, count: nat): seq<Byte> {
    Filled(d.bytes, lba * SECTOR, count * SECTOR)
  }

  /** Sectors inside the disk are a stretch of its bytes. */
  lemma ReadStretch(d: Store, lba: DWord, count: nat)
    requires Sized(d) && lba + count <= d.sectors
    ensures Read(d, lba, count) == d.bytes[512 * lba..512 * (lba + count)]
  {
  }

  function Write(d: Store, lba: DWord, data: seq<Byte>): (d': Store)
    requires lba * SECTOR + |data| <= |d.bytes|
    ensures |d'.bytes| == |d.bytes| && d'.sectors == d.sectors
  {
    d.(bytes := d.bytes[..lba * SECTOR] + data + d.bytes[lba * SECTOR + |data|..])
  }

  /** What was written is read back, and no other byte changes. */
  lemma WriteThenRead(d: Store, lba: DWord, data: seq<Byte>, n: nat)
    requires |data| == n * SECTOR && lba * SECTOR + |data| <= |d.bytes|
    ensures Read(Write(d, lba, data), lba, n) == data
    ensures forall i | 0 <= i < |d.bytes| && !(lba * SECTOR <= i < lba * SECTOR + |data|) ::
              Write(d, lba, data).bytes[i] == d.bytes[i]
  {
  }

  class HardDisk {
    const data: array<Byte>
    const sectors: DWord

    ghost predicate Valid() {
      data.Length == sectors * SECTOR
    }

    ghost function View(): Store
      reads data
    {
      Store(sectors, data[..])
    }

    /** A zeroed disk in memory. */
    constructor (sectors: DWord)
      ensures Valid() && fresh(data) && this.sectors == sectors
      ensures forall i | 0 <= i < data.Length :: data[i] == 0
    {
      this.sectors := sectors;
      data := new Byte[sectors * SECTOR](_ => 0);
    }

    /** Fills a buffer from the store; what lies past its end stays zero. */
    method ReadAt(len: nat, off: nat) returns (buf: seq<Byte>)
      ensures buf == Filled(data[..], off, len)
    {
      var n := if data.Length <= off then 0 else Min(len, data.Length - off);
      buf := if n == 0 then [] else data[off..off + n];
      buf := buf + seq(len - n, _ => 0);
    }

    /** Refuses to write past the end of the store. */
    method WriteAt(bytes: seq<Byte>, off: nat) returns (ok: bool)
      modifies data
      ensures ok <==> off + |bytes| <= data.Length
      ensures data[..] == if ok then old(data[..off]) + bytes + old(data[off + |bytes|..]) else old(data[..])
    {
      if off + |bytes| > data.Length {
        return false;
      }
      ghost var before := data[..];
      forall i | 0 <= i < |bytes| {
        data[off + i] := bytes[i];
      }
      ok := true;
      assert data[..] == before[..off] + bytes + before[off + |bytes|..];
    }

    method ReadLBA(lba: DWord, count: int) returns (r: Option<seq<Byte>>)
      requires Valid()
      ensures r == if Accepts(sectors, lba, count) then Some(Read(View(), lba, count)) else None
    {
      if count <= 0 || count % 0x1_0000_0000 > (sectors - lba) % 0x1_0000_0000 || lba >= sectors {
        return None;
      }
      var buf := ReadAt(count * SECTOR, lba * SECTOR);
      r := Some(buf);
    }

    /** Writes whole sectors, all of them or none. */
    method WriteLBA(lba: DWord, bytes: seq<Byte>) returns (ok: bool)
      requires Valid()
      modifies data
      ensures ok <==> 0 < |bytes| / SECTOR && lba + |bytes| / SECTOR <= sectors
      ensures ok ==> View() == Write(old(View()), lba, bytes[..|bytes| / SECTOR * SECTOR])
      ensures !ok ==> View() == old(View())
    {
      var count := |bytes| / SECTOR;
      AcceptsExactly(sectors, lba, count);
      if count <= 0 || count % 0x1_0000_0000 > (sectors - lba) % 0x1_0000_0000 || lba >= sectors {
        return false;
      }
      ok := WriteAt(bytes[..count * SECTOR], lba * SECTOR);
    }
  }

  // ----- CHS addresses -----

  /** The block number of a CHS address, truncated to 32 bits. */
  function ChsToLba(cyl: int, head: int, sector: int): DWord {
    ToDWord((cyl * HEADS + head) * SPT + (sector - 1))
  }

  predicate LegalChs(total: DWord, cyl: int, head: int, sector: int) {
    0 <= cyl < Cylinders(total) && 0 <= head < HEADS && 1 <= sector <= SPT
  }

  lemma ChsParts(c: int, h: int, s: int)
    requires 0 <= c <= 16383 && 0 <= h < HEADS && 1 <= s <= SPT
    ensures var l := (c * HEADS + h) * SPT + (s - 1);
            ChsToLba(c, h, s) == l && l % SPT == s - 1 && l / SPT == c * HEADS + h
    ensures (c * HEADS + h) % HEADS == h && (c * HEADS + h) / HEADS == c
  {
  }

  /**
   Blocks are numbered in the order cylinder, head, sector, from 0 for the first sector:
   after a track comes the next head, after the last of 16 heads the next cylinder.
   */
  lemma ChsInOrder(c: int, h: int, s: int)
    requires 0 <= c < 0x1_0000 && 0 <= h < 16 && 1 <= s <= 63
    ensures ChsToLba(0, 0, 1) == 0
    ensures ChsToLba(c, h, s) + 1 ==
            if s < 63 then ChsToLba(c, h, s + 1)
            else if h < 15 then ChsToLba(c, h + 1, 1)
            else ChsToLba(c + 1, 0, 1)
  {
  }

  /** Legal CHS addresses are different blocks below the CHS capacity. */
  lemma ChsInjective(total: DWord, c: int, h: int, s: int, c': int, h': int, s': int)
    requires LegalChs(total, c, h, s) && LegalChs(total, c', h', s')
    ensures ChsToLba(c, h, s) < ChsCapacity(total)
    ensures ChsToLba(c, h, s) == ChsToLba(c', h', s') ==> (c, h, s) == (c', h', s')
  {
    ChsParts(c, h, s);
    ChsParts(c', h', s');
  }

  /** Every block below the CHS capacity has a legal CHS address. */
  lemma ChsCovers(total: DWord, lba: int)
    requires 0 <= lba < ChsCapacity(total)
    ensures var c, h, s := lba / SPT / HEADS, lba / SPT % HEADS, lba % SPT + 1;
            LegalChs(total, c, h, s) && ChsToLba(c, h, s) == lba
  {
  }
}
