/**
 The data phase of the floppy controller: sectors moved one by one through DMA
 channel 2 until Terminal Count, EOT or the end of the track, and its closed form.
 */
module FdcTransfer {
  import opened Bytes
  import opened Memory
  import opened FloppyDisk
  import opened Dma

  /** What a transfer works on: memory, disk image and DMA registers. */
  datatype Media = Media(mem: seq<Byte>, image: seq<Byte>, dma: Registers)

  /**
   Read Data or Write Data along a track: where the first sector starts in the image
   and how many sectors there are from it to the end of the track.
   */
  datatype Job = Job(write: bool, rom: seq<RomRange>, start: int, sectors: int)

  /** Sectors from `r` to the end of the track; none for an illegal address. */
  function TrackLimit(g: Geometry, c: int, h: int, r: int): int {
    if ValidChs(g, c, h, r) then g.sectors - r + 1 else 0
  }

  function JobFor(write: bool, rom: seq<RomRange>, g: Geometry, c: int, h: int, r: int): Job {
    Job(write, rom, SectorOffset(g, c, h, r), TrackLimit(g, c, h, r))
  }

  ghost predicate Fits(j: Job, m: Media) {
    && |m.mem| == SIZE && 0 <= j.sectors <= 18
    && (0 < j.sectors ==> 0 <= j.start && j.start + 0x200 * j.sectors <= |m.image|)
  }

  /** A job on a standard image fits, and its `i`-th sector is sector `r + i`. */
  lemma JobFits(write: bool, rom: seq<RomRange>, g: Geometry, c: int, h: int, r: int, m: Media)
    requires Standard(g) && |m.mem| == SIZE && |m.image| == ImageSize(g)
    ensures Fits(JobFor(write, rom, g, c, h, r), m)
  {
    FormatFacts(g);
    if ValidChs(g, c, h, r) {
      SectorInside(g, c, h, r);
      SectorInside(g, c, h, g.sectors);
      SectorStep(g, c, h, r, g.sectors - r);
    }
  }

  lemma JobSector(write: bool, rom: seq<RomRange>, g: Geometry, c: int, h: int, r: int, i: int)
    requires Standard(g) && 0 <= i <= TrackLimit(g, c, h, r)
    ensures ValidChs(g, c, h, r + i) <==> i < TrackLimit(g, c, h, r)
    ensures SectorOffset(g, c, h, r + i) == JobFor(write, rom, g, c, h, r).start + 0x200 * i
  {
    SectorStep(g, c, h, r, i);
  }

  // ----- One pass of the loop -----

  /** Where the `i`-th sector of the job starts in the image. */
  function SectorAt(j: Job, i: int): int {
    j.start + 0x200 * i
  }

  /** One pass for the `i`-th sector. A write fetches its bytes before the address is checked. */
  ghost function Pass(j: Job, m: Media, i: nat): (m': Media)
    requires Fits(j, m)
    ensures Fits(j, m')
  {
    if j.write then
      var (bytes, dma, _) := From(m.mem, m.dma, 2, 0x200);
      Media(m.mem, if i < j.sectors then Overwrite(m.image, SectorAt(j, i), bytes) else m.image, dma)
    else if i < j.sectors then
      var (mem, dma, _) := Into(m.mem, j.rom, m.dma, 2, m.image[SectorAt(j, i)..SectorAt(j, i) + 0x200]);
      Media(mem, m.image, dma)
    else m
  }

  /** The first `n` passes. */
  ghost function Passes(j: Job, m: Media, n: nat): (m': Media)
    requires Fits(j, m)
    ensures Fits(j, m')
  {
    if n == 0 then m else Pass(j, Passes(j, m, n - 1), n - 1)
  }

  // ----- How many sectors move -----

  /** Sectors until the channel's count is used up. */
  function DmaLimit(count: Word): int {
    (count + 0x200) / 0x200
  }

  /** Sectors until EOT; the first sector is always attempted. */
  function EotLimit(r: int, eot: int): int {
    Max(1, eot - r + 1)
  }

  /** Bytes moved by `k` sectors. */
  function Total(count: Word, k: int): int {
    Min(count + 1, 0x200 * k)
  }

  // ----- Where bytes land -----

  /** The address of the `i`-th byte: each sector starts at the wrapped 16-bit address. */
  function Dest(c: Channel, i: int): int {
    (c.page * 0x1_0000 + InPage(c, i)) % SIZE
  }

  /** The offset of a byte from the start of the page, before the 20-bit mask. */
  function InPage(c: Channel, i: int): int {
    ToWord(c.addr + i / 0x200 * 0x200) + i % 0x200
  }

  lemma InPageIs(c: Channel, i: int)
    requires 0 <= i < 18 * 0x200
    ensures InPage(c, i) == if c.addr + i / 0x200 * 0x200 < 0x1_0000 then c.addr + i else c.addr + i - 0x1_0000
    ensures 0 <= InPage(c, i) < SIZE
  {
    WordResidue(c.addr + i / 0x200 * 0x200, if c.addr + i / 0x200 * 0x200 < 0x1_0000 then 0 else 1,
                InPage(c, i) - i % 0x200);
  }

  /** Sectors never overlap in memory. */
  lemma DestInjective(c: Channel, i: int, k: int)
    requires 0 <= i < k < 18 * 0x200
    ensures Dest(c, i) != Dest(c, k)
  {
    InPageIs(c, i);
    InPageIs(c, k);
    SameResidue(c.page * 0x1_0000, InPage(c, i), InPage(c, k));
  }

  lemma SameResidue(b: int, u: int, v: int)
    requires 0 <= u < SIZE && 0 <= v < SIZE
    ensures (b + u) % SIZE == (b + v) % SIZE ==> u == v
  {
    assert u - v == SIZE * ((b + u) / SIZE - (b + v) / SIZE) + (b + u) % SIZE - (b + v) % SIZE;
  }

  /**
   The bytes land one after another exactly when no sector but the first starts
   past the end of the 64 KB page.
   */
  lemma DestContiguousIff(c: Channel, total: int)
    requires 0 < total <= 18 * 0x200
    ensures (forall i | 0 <= i < total :: Dest(c, i) == (Base(c) + i) % SIZE)
            <==> c.addr + (total - 1) / 0x200 * 0x200 < 0x1_0000
  {
    if c.addr + (total - 1) / 0x200 * 0x200 < 0x1_0000 {
      forall i | 0 <= i < total ensures Dest(c, i) == (Base(c) + i) % SIZE {
        DestStraight(c, i);
      }
    } else {
      var last := (total - 1) / 0x200 * 0x200;
      assert last / 0x200 * 0x200 == last && last % 0x200 == 0;
      var v := Base(c) + last;
      assert Dest(c, last) == (v - 0x1_0000) % SIZE;
      assert Dest(c, last) != v % SIZE;
    }
  }

  lemma DestStraight(c: Channel, i: int)
    requires 0 <= i && c.addr + i / 0x200 * 0x200 < 0x1_0000
    ensures Dest(c, i) == (Base(c) + i) % SIZE
  {
    assert i / 0x200 * 0x200 + i % 0x200 == i;
  }

  /** Byte `t` of sector `k` in terms of the channel as it stands then. */
  lemma DestInSector(c: Channel, k: int, t: int)
    requires 0 <= k && 0 <= t < 0x200
    ensures Dest(c, 0x200 * k + t) == (Base(Advance(c, 0x200 * k)) + t) % SIZE
  {
    assert (0x200 * k + t) / 0x200 == k && (0x200 * k + t) % 0x200 == t;
  }

  /** `mem'` is `mem` with the bytes at their destinations, except where ROM is. */
  ghost predicate Landed(mem: seq<Byte>, mem': seq<Byte>, rom: seq<RomRange>, c: Channel, bytes: seq<Byte>) {
    && |mem| == SIZE && |mem'| == SIZE
    && (forall i | 0 <= i < |bytes| ::
          mem'[Dest(c, i)] == if IsRom(rom, Dest(c, i)) then mem[Dest(c, i)] else bytes[i])
    && (forall a | 0 <= a < SIZE && (forall i | 0 <= i < |bytes| :: Dest(c, i) != a) :: mem'[a] == mem[a])
  }

  /** The index of a byte that lands on the address. */
  ghost function Source(c: Channel, n: int, a: int): (i: int)
    requires exists i :: 0 <= i < n && Dest(c, i) == a
    ensures 0 <= i < n && Dest(c, i) == a
  {
    var i :| 0 <= i < n && Dest(c, i) == a;
    i
  }

  predicate Hit(c: Channel, n: int, a: int) {
    exists i | 0 <= i < n :: Dest(c, i) == a
  }

  /** Memory with the bytes put at their destinations, except where ROM is. */
  ghost function Land(mem: seq<Byte>, rom: seq<RomRange>, c: Channel, bytes: seq<Byte>): (mem': seq<Byte>)
    requires |mem| == SIZE
    ensures |mem'| == SIZE
  {
    seq(SIZE, a requires 0 <= a < SIZE =>
      if Hit(c, |bytes|, a) && !IsRom(rom, a) then bytes[Source(c, |bytes|, a)] else mem[a])
  }

  /** Landing in terms of each byte and of every other address. */
  lemma LandBytes(mem: seq<Byte>, rom: seq<RomRange>, c: Channel, bytes: seq<Byte>)
    requires |mem| == SIZE && |bytes| <= 18 * 0x200
    ensures Landed(mem, Land(mem, rom, c, bytes), rom, c, bytes)
  {
    var mem' := Land(mem, rom, c, bytes);
    forall i | 0 <= i < |bytes|
      ensures mem'[Dest(c, i)] == if IsRom(rom, Dest(c, i)) then mem[Dest(c, i)] else bytes[i]
    {
      var a := Dest(c, i);
      assert Hit(c, |bytes|, a);
      var s := Source(c, |bytes|, a);
      if s < i { DestInjective(c, s, i); } else if i < s { DestInjective(c, i, s); }
    }
  }

  lemma LandNothing(mem: seq<Byte>, rom: seq<RomRange>, c: Channel)
    requires |mem| == SIZE
    ensures Land(mem, rom, c, []) == mem
  {
  }

  /** Landing is determined byte by byte. */
  lemma LandedIsLand(mem: seq<Byte>, mem': seq<Byte>, rom: seq<RomRange>, c: Channel, bytes: seq<Byte>)
    requires Landed(mem, mem', rom, c, bytes)
    ensures mem' == Land(mem, rom, c, bytes)
  {
    forall a | 0 <= a < SIZE ensures mem'[a] == Land(mem, rom, c, bytes)[a] {
      if Hit(c, |bytes|, a) {
        var s := Source(c, |bytes|, a);
        assert Dest(c, s) == a;
      }
    }
  }

  /** The bytes a write gathers from memory. */
  ghost function Gathered(mem: seq<Byte>, c: Channel, n: int): seq<Byte>
    requires |mem| == SIZE && 0 <= n
  {
    seq(n, i requires 0 <= i < n => mem[Dest(c, i)])
  }

  /** While the bytes follow one another, landing is one deposit. */
  lemma LandedStraight(mem: seq<Byte>, mem': seq<Byte>, rom: seq<RomRange>, c: Channel, bytes: seq<Byte>)
    requires Landed(mem, mem', rom, c, bytes) && 0 < |bytes| <= 18 * 0x200
    requires c.addr + (|bytes| - 1) / 0x200 * 0x200 < 0x1_0000
    ensures mem' == Deposit(mem, rom, Base(c), bytes)
  {
    DestContiguousIff(c, |bytes|);
    forall a | 0 <= a < SIZE ensures mem'[a] == Deposit(mem, rom, Base(c), bytes)[a] {
      StraightAt(mem, mem', rom, c, bytes, a);
    }
  }

  lemma StraightAt(mem: seq<Byte>, mem': seq<Byte>, rom: seq<RomRange>, c: Channel, bytes: seq<Byte>, a: int)
    requires Landed(mem, mem', rom, c, bytes) && |bytes| <= SIZE && 0 <= a < SIZE
    requires forall i | 0 <= i < |bytes| :: Dest(c, i) == (Base(c) + i) % SIZE
    ensures mem'[a] == Deposit(mem, rom, Base(c), bytes)[a]
  {
    var d := Distance(Base(c), a);
    if d < |bytes| {
      DistanceForth(Base(c), a);
      assert Dest(c, d) == a;
    } else {
      forall i | 0 <= i < |bytes| ensures Dest(c, i) != a {
        DistanceBack(Base(c), i);
      }
    }
  }

  /** One more sector lands after `k` whole ones. */
  lemma LandedStep(mem: seq<Byte>, mem': seq<Byte>, rom: seq<RomRange>, c: Channel,
                   x: seq<Byte>, y: seq<Byte>, k: int)
    requires Landed(mem, mem', rom, c, x)
    requires 0 <= k < 18 && |x| == 0x200 * k && |y| <= 0x200
    ensures Landed(mem, Deposit(mem', rom, Base(Advance(c, 0x200 * k)), y), rom, c, x + y)
  {
    var base := Base(Advance(c, 0x200 * k));
    var mem'' := Deposit(mem', rom, base, y);
    forall i | 0 <= i < |x + y|
      ensures mem''[Dest(c, i)] == if IsRom(rom, Dest(c, i)) then mem[Dest(c, i)] else (x + y)[i]
    {
      var a := Dest(c, i);
      if i < |x| {
        forall t | 0x200 * k <= t < 0x200 * k + |y| ensures Dest(c, t) != a { DestInjective(c, i, t); }
        MissesSector(c, k, |y|, a);
      } else {
        var t := i - |x|;
        DestInSector(c, k, t);
        DistanceBack(base, t);
        forall p | 0 <= p < |x| ensures Dest(c, p) != a { DestInjective(c, p, i); }
      }
    }
    forall a | 0 <= a < SIZE && forall i | 0 <= i < |x + y| :: Dest(c, i) != a
      ensures mem''[a] == mem[a]
    {
      MissesSector(c, k, |y|, a);
    }
  }

  lemma HitsSector(c: Channel, k: int, a: int)
    requires 0 <= k && 0 <= a < SIZE && Distance(Base(Advance(c, 0x200 * k)), a) < 0x200
    ensures Dest(c, 0x200 * k + Distance(Base(Advance(c, 0x200 * k)), a)) == a
  {
    var base := Base(Advance(c, 0x200 * k));
    DestInSector(c, k, Distance(base, a));
    DistanceForth(base, a);
  }

  lemma MissesSector(c: Channel, k: int, n: int, a: int)
    requires 0 <= k && 0 <= a < SIZE && 0 <= n <= 0x200
    requires forall t | 0x200 * k <= t < 0x200 * k + n :: Dest(c, t) != a
    ensures n <= Distance(Base(Advance(c, 0x200 * k)), a)
  {
    if Distance(Base(Advance(c, 0x200 * k)), a) < n {
      HitsSector(c, k, a);
    }
  }

  // ----- The closed form -----

  /** Sector `k` starts with the count reduced by whole sectors only. */
  lemma SectorShare(c: Channel, k: int)
    requires 0 < k <= DmaLimit(c.count)
    ensures Total(c.count, k - 1) == 0x200 * (k - 1) <= c.count
    ensures Advance(c, 0x200 * (k - 1)).count == c.count - 0x200 * (k - 1)
    ensures Total(c.count, k) == 0x200 * (k - 1) + Moved(Advance(c, 0x200 * (k - 1)), 0x200)
    ensures TerminalCount(Advance(c, 0x200 * (k - 1)), Moved(Advance(c, 0x200 * (k - 1)), 0x200))
            <==> k == DmaLimit(c.count)
  {
  }

  /** The registers after `k` sectors of a transfer. */
  ghost function DmaAfter(m: Media, k: int): Registers {
    Transferred(m.dma, 2, Total(m.dma.channels[2].count, k))
  }

  lemma DmaStep(m: Media, k: int)
    requires 0 < k <= DmaLimit(m.dma.channels[2].count) && k <= 19
    ensures var c := m.dma.channels[2];
            && DmaAfter(m, k - 1).channels[2] == Advance(c, 0x200 * (k - 1))
            && Transferred(DmaAfter(m, k - 1), 2, Moved(Advance(c, 0x200 * (k - 1)), 0x200)) == DmaAfter(m, k)
  {
    var c := m.dma.channels[2];
    SectorShare(c, k);
    TransferredTwice(m.dma, 2, 0x200 * (k - 1), Moved(Advance(c, 0x200 * (k - 1)), 0x200));
  }

  /** The image bytes that `k` sectors of a read deliver. */
  ghost function Stretch(j: Job, m: Media, k: int): seq<Byte>
    requires Fits(j, m) && 0 <= k <= j.sectors
  {
    if k == 0 then [] else m.image[j.start..j.start + Total(m.dma.channels[2].count, k)]
  }

  lemma StretchGrows(j: Job, m: Media, k: nat)
    requires Fits(j, m) && 0 < k <= DmaLimit(m.dma.channels[2].count) && k <= j.sectors
    ensures var n := Moved(Advance(m.dma.channels[2], 0x200 * (k - 1)), 0x200);
            var s := SectorAt(j, k - 1);
            && |Stretch(j, m, k - 1)| == 0x200 * (k - 1)
            && Stretch(j, m, k) == Stretch(j, m, k - 1) + m.image[s..s + n]
  {
    SectorShare(m.dma.channels[2], k);
  }

  /**
   What `k` sectors of Read Data do: the first min(count + 1, 512 k) bytes of the
   image from the CHS offset have landed at their destinations, the rest of memory and
   the image are as before, and the channel has advanced by the bytes moved.
   */
  ghost predicate HasRead(j: Job, m: Media, m': Media, k: nat)
    requires Fits(j, m) && k <= j.sectors
  {
    m' == Media(Land(m.mem, j.rom, m.dma.channels[2], Stretch(j, m, k)), m.image, DmaAfter(m, k))
  }

  lemma ReadPass(j: Job, m: Media, before: Media, k: nat)
    requires Fits(j, m) && !j.write && Fits(j, before)
    requires 0 < k <= DmaLimit(m.dma.channels[2].count) && k <= j.sectors
    requires before.image == m.image && before.dma == DmaAfter(m, k - 1)
    ensures var c := Advance(m.dma.channels[2], 0x200 * (k - 1));
            var s := SectorAt(j, k - 1);
            Pass(j, before, k - 1) ==
            Media(Deposit(before.mem, j.rom, Base(c), m.image[s..s + Moved(c, 0x200)]), m.image, DmaAfter(m, k))
  {
    DmaStep(m, k);
    var s := SectorAt(j, k - 1);
    var bytes := m.image[s..s + 0x200];
    var n := Moved(before.dma.channels[2], 0x200);
    assert bytes[..n] == m.image[s..s + n];
  }

  /** One more sector deposited after the first ones landed is the longer stretch landed. */
  lemma StretchLands(j: Job, m: Media, k: nat)
    requires Fits(j, m) && 0 < k <= DmaLimit(m.dma.channels[2].count) && k <= j.sectors
    ensures var c, c' := m.dma.channels[2], Advance(m.dma.channels[2], 0x200 * (k - 1));
            var s := SectorAt(j, k - 1);
            Deposit(Land(m.mem, j.rom, c, Stretch(j, m, k - 1)), j.rom, Base(c'), m.image[s..s + Moved(c', 0x200)])
            == Land(m.mem, j.rom, c, Stretch(j, m, k))
  {
    var c, c' := m.dma.channels[2], Advance(m.dma.channels[2], 0x200 * (k - 1));
    var s := SectorAt(j, k - 1);
    var x, y := Stretch(j, m, k - 1), m.image[s..s + Moved(c', 0x200)];
    StretchGrows(j, m, k);
    LandBytes(m.mem, j.rom, c, x);
    LandedStep(m.mem, Land(m.mem, j.rom, c, x), j.rom, c, x, y, k - 1);
    LandedIsLand(m.mem, Deposit(Land(m.mem, j.rom, c, x), j.rom, Base(c'), y), j.rom, c, x + y);
  }

  lemma HasReadStep(j: Job, m: Media, before: Media, after: Media, k: nat)
    requires Fits(j, m) && Fits(j, before) && !j.write
    requires 0 < k <= DmaLimit(m.dma.channels[2].count) && k <= j.sectors
    requires HasRead(j, m, before, k - 1) && after == Pass(j, before, k - 1)
    ensures HasRead(j, m, after, k)
  {
    StretchLands(j, m, k);
    ReadPass(j, m, before, k);
  }

  lemma PassesNext(j: Job, m: Media, k: nat)
    requires Fits(j, m) && 0 < k
    ensures Passes(j, m, k) == Pass(j, Passes(j, m, k - 1), k - 1)
  {
  }

  lemma {:induction false} ReadPasses(j: Job, m: Media, k: nat)
    requires Fits(j, m) && !j.write
    requires k <= DmaLimit(m.dma.channels[2].count) && k <= j.sectors
    ensures HasRead(j, m, Passes(j, m, k), k)
  {
    if k == 0 {
      LandNothing(m.mem, j.rom, m.dma.channels[2]);
    } else {
      ReadPasses(j, m, k - 1);
      PassesNext(j, m, k);
      HasReadStep(j, m, Passes(j, m, k - 1), Passes(j, m, k), k);
    }
  }

  /** One byte of a read. */
  lemma HasReadByte(j: Job, m: Media, m': Media, k: nat, i: nat)
    requires Fits(j, m) && k <= j.sectors && HasRead(j, m, m', k)
    requires i < Total(m.dma.channels[2].count, k)
    ensures var a := Dest(m.dma.channels[2], i);
            && 0 <= j.start + i < |m.image|
            && m'.mem[a] == if IsRom(j.rom, a) then m.mem[a] else m.image[j.start + i]
  {
    LandBytes(m.mem, j.rom, m.dma.channels[2], Stretch(j, m, k));
  }

  lemma LastSector(count: Word, k: int)
    requires 0 < k <= DmaLimit(count)
    ensures 0 < Total(count, k) && (Total(count, k) - 1) / 0x200 * 0x200 == 0x200 * (k - 1)
  {
  }

  /** A read whose last sector starts inside the 64 KB page is one deposit. */
  lemma HasReadStraight(j: Job, m: Media, m': Media, k: nat)
    requires Fits(j, m) && 0 < k <= j.sectors && k <= DmaLimit(m.dma.channels[2].count)
    requires HasRead(j, m, m', k)
    requires m.dma.channels[2].addr + 0x200 * (k - 1) < 0x1_0000
    ensures m'.mem == Deposit(m.mem, j.rom, Base(m.dma.channels[2]),
                              m.image[j.start..j.start + Total(m.dma.channels[2].count, k)])
  {
    LastSector(m.dma.channels[2].count, k);
    LandBytes(m.mem, j.rom, m.dma.channels[2], Stretch(j, m, k));
    LandedStraight(m.mem, m'.mem, j.rom, m.dma.channels[2], Stretch(j, m, k));
  }

  /** The image after `k` sectors of a write. */
  ghost function Written(j: Job, m: Media, k: nat): seq<Byte>
    requires Fits(j, m) && k <= j.sectors
  {
    if k == 0 then m.image
    else Overwrite(m.image, j.start, Gathered(m.mem, m.dma.channels[2], Total(m.dma.channels[2].count, k)))
  }

  lemma WrittenGrows(j: Job, m: Media, k: nat)
    requires Fits(j, m) && 0 < k <= DmaLimit(m.dma.channels[2].count) && k <= j.sectors
    ensures var c := Advance(m.dma.channels[2], 0x200 * (k - 1));
            Written(j, m, k) ==
            Overwrite(Written(j, m, k - 1), SectorAt(j, k - 1), Collect(m.mem, Base(c), Moved(c, 0x200)))
  {
    var c := m.dma.channels[2];
    SectorShare(c, k);
    var n := Moved(Advance(c, 0x200 * (k - 1)), 0x200);
    GatherStep(m.mem, c, k, n);
    if k == 1 {
      OverwriteNothing(m.image, j.start, Gathered(m.mem, c, 0));
    }
    OverwriteAppend(m.image, j.start, Gathered(m.mem, c, 0x200 * (k - 1)),
                    Collect(m.mem, Base(Advance(c, 0x200 * (k - 1))), n));
  }

  /**
   What `k` sectors of Write Data do: the bytes gathered from memory replace the first
   min(count + 1, 512 k) bytes of the image from the CHS offset and memory is as before.
   */
  ghost predicate HasWritten(j: Job, m: Media, m': Media, k: nat)
    requires Fits(j, m) && k <= j.sectors
  {
    m' == Media(m.mem, Written(j, m, k), DmaAfter(m, k))
  }

  lemma HasWrittenStep(j: Job, m: Media, before: Media, after: Media, k: nat)
    requires Fits(j, m) && Fits(j, before) && j.write
    requires 0 < k <= DmaLimit(m.dma.channels[2].count) && k <= j.sectors
    requires HasWritten(j, m, before, k - 1) && after == Pass(j, before, k - 1)
    ensures HasWritten(j, m, after, k)
  {
    DmaStep(m, k);
    WrittenGrows(j, m, k);
  }

  lemma {:induction false} WritePasses(j: Job, m: Media, k: nat)
    requires Fits(j, m) && j.write
    requires k <= DmaLimit(m.dma.channels[2].count) && k <= j.sectors
    ensures HasWritten(j, m, Passes(j, m, k), k)
  {
    if k != 0 {
      WritePasses(j, m, k - 1);
      PassesNext(j, m, k);
      HasWrittenStep(j, m, Passes(j, m, k - 1), Passes(j, m, k), k);
    }
  }

  lemma OverwriteNothing(image: seq<Byte>, off: int, bytes: seq<Byte>)
    requires 0 <= off <= |image| && bytes == []
    ensures Overwrite(image, off, bytes) == image
  {
  }

  lemma GatherStep(mem: seq<Byte>, c: Channel, k: int, n: int)
    requires |mem| == SIZE && 0 < k && 0 <= n <= 0x200
    ensures Gathered(mem, c, 0x200 * (k - 1)) + Collect(mem, Base(Advance(c, 0x200 * (k - 1))), n)
            == Gathered(mem, c, 0x200 * (k - 1) + n)
  {
    var x, y := Gathered(mem, c, 0x200 * (k - 1)), Collect(mem, Base(Advance(c, 0x200 * (k - 1))), n);
    forall t | 0 <= t < n ensures y[t] == Gathered(mem, c, 0x200 * (k - 1) + n)[0x200 * (k - 1) + t] {
      DestInSector(c, k - 1, t);
    }
    assert (x + y)[..|x|] == x && (x + y)[|x|..] == y;
    assert Gathered(mem, c, 0x200 * (k - 1) + n)[..|x|] == x;
    assert Gathered(mem, c, 0x200 * (k - 1) + n)[|x|..] == y;
  }

  lemma PassBeyond(j: Job, m: Media, i: nat)
    requires Fits(j, m) && j.sectors <= i
    ensures Pass(j, m, i) ==
            if j.write then m.(dma := Transferred(m.dma, 2, Moved(m.dma.channels[2], 0x200))) else m
  {
  }

  /**
   A pass beyond the end of the track fails: a read leaves everything alone, a write
   has already taken its bytes from the DMA channel.
   */
  lemma FailedPass(j: Job, m: Media)
    requires Fits(j, m) && j.sectors < DmaLimit(m.dma.channels[2].count)
    ensures var done := Passes(j, m, j.sectors);
            Passes(j, m, j.sectors + 1) ==
            if j.write then done.(dma := DmaAfter(m, j.sectors + 1)) else done
  {
    var done := Passes(j, m, j.sectors);
    PassBeyond(j, done, j.sectors);
    if j.write {
      WritePasses(j, m, j.sectors);
      DmaStep(m, j.sectors + 1);
    }
  }

  /**
   Write Data and then Read Data of the same sectors with the same byte count: the
   destination receives the bytes of the source, a short last sector included, and
   neither memory nor image changes anywhere else. `dma` is whatever the registers hold
   when the channel is programmed again.
   */
  lemma WriteThenRead(j: Job, m: Media, k: nat, dma: Registers, addr: Word, page: Byte)
    requires Fits(j, m) && j.write
    requires 0 < k <= DmaLimit(m.dma.channels[2].count) && k <= j.sectors
    ensures var src := m.dma.channels[2];
            var n := Total(src.count, k);
            var m1 := Passes(j, m, k);
            var m2 := m1.(dma := ProgramFloppy(dma, addr, page, src.count));
            var m3 := Passes(j.(write := false), m2, k);
            && m3.mem == Land(m.mem, j.rom, m2.dma.channels[2], Gathered(m.mem, src, n))
            && m2.dma.channels[2].addr == addr && m2.dma.channels[2].page == page
            && m3.image == m1.image && |m1.image| == |m.image|
            && forall p | 0 <= p < |m.image| && !(j.start <= p < j.start + n) :: m1.image[p] == m.image[p]
  {
    var count := m.dma.channels[2].count;
    var m1 := Passes(j, m, k);
    var m2 := m1.(dma := ProgramFloppy(dma, addr, page, count));
    WritePasses(j, m, k);
    ProgramSetsChannel(dma, addr, page, count);
    ReadPasses(j.(write := false), m2, k);
    ReadsWhatWasWritten(m.image, j.start, Gathered(m.mem, m.dma.channels[2], Total(count, k)));
  }

  lemma ReadsWhatWasWritten(image: seq<Byte>, off: int, bytes: seq<Byte>)
    requires 0 <= off && off + |bytes| <= |image|
    ensures Overwrite(image, off, bytes)[off..off + |bytes|] == bytes
  {
  }
}
