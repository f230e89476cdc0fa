/**
 The 8237A DMA controller: 16-bit address and count registers written a byte at a
 time, page registers, and block transfers that stop at Terminal Count.
 */
module Dma {
  import opened Bytes
  import opened Memory

  datatype Channel = Channel(addr: Word, count: Word, page: Byte, mode: Byte, masked: bool)

  const RESET_CHANNEL := Channel(0, 0, 0, 0, true)

  const RESET_CHANNELS := [RESET_CHANNEL, RESET_CHANNEL, RESET_CHANNEL, RESET_CHANNEL]

  type Channels = s: seq<Channel> | |s| == 4 witness RESET_CHANNELS

  datatype Registers = Registers(channels: Channels, flipHi: bool, tcStatus: Byte)

  const RESET := Registers(RESET_CHANNELS, false, 0)

  type ChannelNo = n: int | 0 <= n < 4

  // ----- One block transfer -----

  /** The physical address: page and 16-bit address. */
  function Base(c: Channel): int {
    c.page * 0x1_0000 + c.addr
  }

  /** How many of `len` bytes the channel still accepts. */
  function Moved(c: Channel, len: int): int {
    Min(c.count + 1, len)
  }

  /** Address and count after `n` bytes, both modulo 2^16. */
  function Advance(c: Channel, n: int): Channel {
    c.(addr := ToWord(c.addr + n), count := ToWord(c.count - n))
  }

  /** The count ran below zero. */
  predicate TerminalCount(c: Channel, n: int) {
    ToWord(n) > c.count
  }

  /** `1 << uint(channel)`. */
  function ChannelBit(k: ChannelNo): int {
    if k == 0 then 1 else if k == 1 then 2 else if k == 2 then 4 else 8
  }

  function SetStatus(v: Byte, k: ChannelNo): Byte {
    if Bit(v, ChannelBit(k)) then v else v + ChannelBit(k)
  }

  function Transferred(r: Registers, k: ChannelNo, n: int): Registers {
    r.(channels := r.channels[k := Advance(r.channels[k], n)],
       tcStatus := if TerminalCount(r.channels[k], n) then SetStatus(r.tcStatus, k) else r.tcStatus)
  }

  /**
   A transfer of at most `len` bytes reports Terminal Count exactly when it used up
   the programmed count, except for a whole 64 KB page, whose length is zero as a
   16-bit number.
   */
  lemma TerminalCountExact(c: Channel, len: int)
    requires 0 <= len
    ensures TerminalCount(c, Moved(c, len)) <==>
            Moved(c, len) == c.count + 1 && c.count != 0xFFFF
    ensures c.count == 0xFFFF && 0x1_0000 <= len ==> Advance(c, Moved(c, len)) == c
  {
  }

  /** The 16-bit address wraps inside its page between transfers. */
  lemma BaseAfter(c: Channel, n: int)
    requires 0 <= n <= 0x1_0000
    ensures Base(Advance(c, n)) ==
            if c.addr + n < 0x1_0000 then Base(c) + n else Base(c) + n - 0x1_0000
  {
  }

  lemma AdvanceTwice(c: Channel, n: int, m: int)
    ensures Advance(Advance(c, n), m) == Advance(c, n + m)
  {
    WordSum(c.addr + n, m);
    WordSum(c.count - n, -m);
  }

  /** The bytes of a transfer to memory, and what it leaves behind. */
  ghost function Into(mem: seq<Byte>, rom: seq<RomRange>, r: Registers, k: ChannelNo, bytes: seq<Byte>)
    : (seq<Byte>, Registers, bool)
    requires |mem| == SIZE
  {
    var c := r.channels[k];
    var n := Moved(c, |bytes|);
    (Deposit(mem, rom, Base(c), bytes[..n]), Transferred(r, k, n), TerminalCount(c, n))
  }

  /** The bytes of a transfer from memory, and what it leaves behind. */
  ghost function From(mem: seq<Byte>, r: Registers, k: ChannelNo, len: int): (seq<Byte>, Registers, bool)
    requires |mem| == SIZE && 0 <= len
  {
    var c := r.channels[k];
    var n := Moved(c, len);
    (Collect(mem, Base(c), n), Transferred(r, k, n), TerminalCount(c, n))
  }

  lemma AdvancePart(c: Channel, n: int, m: int)
    requires 0 <= n <= c.count && 0 <= m
    requires n + m <= c.count + 1 && n + m < 0x1_0000
    ensures !TerminalCount(c, n) && Advance(c, n).count == c.count - n
    ensures TerminalCount(Advance(c, n), m) == TerminalCount(c, n + m)
  {
  }

  /** The registers see two transfers as one when the first does not end the count. */
  lemma TransferredTwice(r: Registers, k: ChannelNo, n: int, m: int)
    requires 0 <= n <= r.channels[k].count && 0 <= m
    requires n + m <= r.channels[k].count + 1 && n + m < 0x1_0000
    ensures Transferred(Transferred(r, k, n), k, m) == Transferred(r, k, n + m)
    ensures TerminalCount(Advance(r.channels[k], n), m) == TerminalCount(r.channels[k], n + m)
  {
    var c := r.channels[k];
    AdvancePart(c, n, m);
    AdvanceTwice(c, n, m);
    var c1 := Advance(c, n);
    assert r.channels[k := c1][k := Advance(c1, m)] == r.channels[k := Advance(c1, m)];
  }

  /**
   Moving `x` and then `y` equals moving `x + y` at once: memory, address, count,
   Terminal Count bit and reported Terminal Count, as long as the second transfer
   does not start in a new 64 KB page.
   */
  lemma TransfersCompose(mem: seq<Byte>, rom: seq<RomRange>, r: Registers, k: ChannelNo,
                         x: seq<Byte>, y: seq<Byte>)
    requires |mem| == SIZE
    requires |x| <= r.channels[k].count && |x| + |y| <= r.channels[k].count + 1
    requires |x| + |y| < 0x1_0000
    requires r.channels[k].addr + |x| < 0x1_0000
    ensures var (mem1, r1, _) := Into(mem, rom, r, k, x);
            Into(mem1, rom, r1, k, y) == Into(mem, rom, r, k, x + y)
  {
    var c := r.channels[k];
    TransferredTwice(r, k, |x|, |y|);
    BaseAfter(c, |x|);
    DepositAppend(mem, rom, Base(c), x, y, Base(c) + |x|);
    IntoWhole(mem, rom, r, k, x);
    AdvancePart(c, |x|, |y|);
    IntoWhole(Deposit(mem, rom, Base(c), x), rom, Transferred(r, k, |x|), k, y);
    IntoWhole(mem, rom, r, k, x + y);
  }

  /** A transfer no longer than the count moves all its bytes. */
  lemma IntoWhole(mem: seq<Byte>, rom: seq<RomRange>, r: Registers, k: ChannelNo, bytes: seq<Byte>)
    requires |mem| == SIZE && |bytes| <= r.channels[k].count + 1
    ensures Into(mem, rom, r, k, bytes) ==
            (Deposit(mem, rom, Base(r.channels[k]), bytes), Transferred(r, k, |bytes|),
             TerminalCount(r.channels[k], |bytes|))
  {
    assert bytes[..|bytes|] == bytes;
  }

  /** The same for reads from memory. */
  lemma CollectionsCompose(mem: seq<Byte>, r: Registers, k: ChannelNo, n: int, m: int)
    requires |mem| == SIZE && 0 <= n <= r.channels[k].count && 0 <= m
    requires n + m <= r.channels[k].count + 1 && n + m < 0x1_0000
    requires r.channels[k].addr + n < 0x1_0000
    ensures var (x, r1, _) := From(mem, r, k, n);
            var (y, r2, tc) := From(mem, r1, k, m);
            From(mem, r, k, n + m) == (x + y, r2, tc)
  {
    var c := r.channels[k];
    TransferredTwice(r, k, n, m);
    BaseAfter(c, n);
    assert Moved(c, n) == n && Moved(Advance(c, n), m) == m && Moved(c, n + m) == n + m;
    CollectAppend(mem, Base(c), n, m, Base(c) + n);
  }

  /** Byte by byte: where a transfer puts its bytes, unless ROM is there. */
  lemma TransferLands(mem: seq<Byte>, rom: seq<RomRange>, r: Registers, k: ChannelNo, bytes: seq<Byte>, i: nat)
    requires |mem| == SIZE && |bytes| <= 0x10_0000 && i < Min(r.channels[k].count + 1, |bytes|)
    ensures var a := (0x1_0000 * r.channels[k].page + r.channels[k].addr + i) % 0x10_0000;
            Into(mem, rom, r, k, bytes).0[a] == if IsRom(rom, a) then mem[a] else bytes[i]
  {
    DistanceBack(Base(r.channels[k]), i);
  }

  /** Addresses further from its start than it has bytes keep their value. */
  lemma TransferSpares(mem: seq<Byte>, rom: seq<RomRange>, r: Registers, k: ChannelNo, bytes: seq<Byte>, a: int)
    requires |mem| == SIZE && 0 <= a < 0x10_0000
    requires Min(r.channels[k].count + 1, |bytes|)
             <= (a - (0x1_0000 * r.channels[k].page + r.channels[k].addr)) % 0x10_0000
    ensures Into(mem, rom, r, k, bytes).0[a] == mem[a]
  {
  }

  /** And where a transfer from memory takes its bytes. */
  lemma CollectionTakes(mem: seq<Byte>, r: Registers, k: ChannelNo, len: nat, i: nat)
    requires |mem| == SIZE && i < Min(r.channels[k].count + 1, len)
    ensures var bytes := From(mem, r, k, len).0;
            && |bytes| == Min(r.channels[k].count + 1, len)
            && bytes[i] == mem[(0x1_0000 * r.channels[k].page + r.channels[k].addr + i) % 0x10_0000]
  {
  }

  // ----- DRAM refresh on channel 0 -----

  function RefreshOnce(r: Registers): Registers {
    var c := r.channels[0];
    if c.count == 0 then
      r.(tcStatus := SetStatus(r.tcStatus, 0), channels := r.channels[0 := c.(count := 0xFFFF)])
    else
      r.(channels := r.channels[0 := c.(count := c.count - 1)])
  }

  /** `p` refresh cycles at once. */
  function Refreshed(r: Registers, p: nat): Registers {
    var c := r.channels[0];
    r.(tcStatus := if c.count < p then SetStatus(r.tcStatus, 0) else r.tcStatus,
       channels := r.channels[0 := c.(count := ToWord(c.count - p))])
  }

  lemma RefreshNone(r: Registers)
    ensures Refreshed(r, 0) == r
  {
  }

  lemma RefreshSnoc(r: Registers, p: nat)
    ensures RefreshOnce(Refreshed(r, p)) == Refreshed(r, p + 1)
  {
  }

  lemma RefreshAdds(r: Registers, p: nat, q: nat)
    ensures Refreshed(Refreshed(r, p), q) == Refreshed(r, p + q)
  {
    var c := r.channels[0];
    WordSum(c.count - p, 0 - q);
    if p <= c.count {
      assert ToWord(c.count - p) == c.count - p;
    }
  }

  // ----- Ports -----

  /** Half of a 16-bit register, chosen by the first/last flip-flop. */
  function WriteHalf(w: Word, hi: bool, v: Byte): Word {
    if hi then Join(Low(w), v) else Join(v, High(w))
  }

  function ReadHalf(w: Word, hi: bool): Byte {
    if hi then High(w) else Low(w)
  }

  function PageChannel(port: Word): Option<ChannelNo> {
    var p := port % 0x10;
    if p == 0x07 then Some(0) else if p == 0x03 then Some(1)
    else if p == 0x01 then Some(2) else if p == 0x02 then Some(3) else None
  }

  function SetChannel(r: Registers, k: ChannelNo, c: Channel): Registers {
    r.(channels := r.channels[k := c])
  }

  function WriteAddr(r: Registers, k: ChannelNo, v: Byte): Registers {
    var c := r.channels[k];
    SetChannel(r, k, c.(addr := WriteHalf(c.addr, r.flipHi, v))).(flipHi := !r.flipHi)
  }

  function WriteCount(r: Registers, k: ChannelNo, v: Byte): Registers {
    var c := r.channels[k];
    SetChannel(r, k, c.(count := WriteHalf(c.count, r.flipHi, v))).(flipHi := !r.flipHi)
  }

  /** The channel of a register port 0..7: `(port >> 1) & 3`. */
  function ChannelOf(p: int): ChannelNo {
    if p < 2 then 0 else if p < 4 then 1 else if p < 6 then 2 else 3
  }

  function OutPort(r: Registers, port: Word, v: Byte): Registers {
    var p, k := port % 0x10, ChannelOf(port % 0x10);
    if 0x80 <= port then
      match PageChannel(port)
      case Some(ch) => r.(channels := r.channels[ch := r.channels[ch].(page := v)])
      case None => r
    else if p < 8 then
      if p % 2 == 0 then WriteAddr(r, k, v) else WriteCount(r, k, v)
    else if p == 0x0A then
      r.(channels := r.channels[v % 4 := r.channels[v % 4].(masked := Bit(v, 0x04))])
    else if p == 0x0B then
      r.(channels := r.channels[v % 4 := r.channels[v % 4].(mode := v)])
    else if p == 0x0C then r.(flipHi := false)
    else if p == 0x0D then RESET
    else if p == 0x0F then
      r.(channels := seq(4, i requires 0 <= i < 4 => r.channels[i].(masked := Bit(v, ChannelBit(i)))))
    else r
  }

  function InPort(r: Registers, port: Word): (Registers, Byte) {
    var p, k := port % 0x10, ChannelOf(port % 0x10);
    if 0x80 <= port then
      match PageChannel(port)
      case Some(ch) => (r, r.channels[ch].page)
      case None => (r, 0xFF)
    else if p < 8 then
      (r.(flipHi := !r.flipHi),
       ReadHalf(if p % 2 == 0 then r.channels[k].addr else r.channels[k].count, r.flipHi))
    else if p == 0x08 then (r.(tcStatus := 0), r.tcStatus)
    else (r, 0xFF)
  }

  /** Two writes to a 16-bit port, low byte first. */
  function WritePair(r: Registers, port: Word, w: Word): Registers {
    OutPort(OutPort(r, port, Low(w)), port, High(w))
  }

  lemma HalvesMakeWord(before: Word, w: Word)
    ensures WriteHalf(WriteHalf(before, false, Low(w)), true, High(w)) == w
  {
    JoinParts(Low(w), High(before));
    JoinHalves(w);
  }

  lemma AddrPair(r: Registers, k: ChannelNo, w: Word)
    requires !r.flipHi
    ensures WriteAddr(WriteAddr(r, k, Low(w)), k, High(w)) ==
            SetChannel(r, k, r.channels[k].(addr := w))
  {
    HalvesMakeWord(r.channels[k].addr, w);
  }

  lemma CountPair(r: Registers, k: ChannelNo, w: Word)
    requires !r.flipHi
    ensures WriteCount(WriteCount(r, k, Low(w)), k, High(w)) ==
            SetChannel(r, k, r.channels[k].(count := w))
  {
    HalvesMakeWord(r.channels[k].count, w);
  }

  lemma RegisterPort(k: ChannelNo)
    ensures 2 * k % 0x10 == 2 * k && ChannelOf(2 * k) == k && 2 * k % 2 == 0
    ensures (2 * k + 1) % 0x10 == 2 * k + 1 && ChannelOf(2 * k + 1) == k && (2 * k + 1) % 2 == 1
  {
    if k == 0 {} else if k == 1 {} else if k == 2 {} else {}
  }

  lemma AddrPort(r: Registers, k: ChannelNo, v: Byte)
    ensures OutPort(r, 2 * k, v) == WriteAddr(r, k, v)
  {
    RegisterPort(k);
  }

  lemma CountPort(r: Registers, k: ChannelNo, v: Byte)
    ensures OutPort(r, 2 * k + 1, v) == WriteCount(r, k, v)
  {
    RegisterPort(k);
  }

  /** The page registers of channels 0 to 3 are not in the order of the channels. */
  function PagePort(k: ChannelNo): Word {
    if k == 0 then 0x87 else if k == 1 then 0x83 else if k == 2 then 0x81 else 0x82
  }

  lemma PageOut(r: Registers, k: ChannelNo, v: Byte)
    ensures OutPort(r, PagePort(k), v) == SetChannel(r, k, r.channels[k].(page := v))
  {
  }

  lemma FlipFlopPort(r: Registers, v: Byte)
    ensures OutPort(r, 0x0C, v) == r.(flipHi := false)
  {
  }

  /** How a driver programs a channel: clear the flip-flop, address, page, count. */
  function Program(r: Registers, k: ChannelNo, addr: Word, page: Byte, count: Word): Registers {
    WritePair(OutPort(WritePair(OutPort(r, 0x0C, 0), 2 * k, addr), PagePort(k), page), 2 * k + 1, count)
  }

  function ProgramFloppy(r: Registers, addr: Word, page: Byte, count: Word): Registers {
    Program(r, 2, addr, page, count)
  }

  /** Byte-wise programming sets the whole channel from any flip-flop state, and no other. */
  lemma ProgramsChannel(r: Registers, k: ChannelNo, addr: Word, page: Byte, count: Word)
    ensures Program(r, k, addr, page, count) ==
            SetChannel(r.(flipHi := false), k, r.channels[k].(addr := addr, page := page, count := count))
  {
    FlipFlopPort(r, 0);
    var r0 := r.(flipHi := false);
    AddrPort(r0, k, Low(addr));
    AddrPort(WriteAddr(r0, k, Low(addr)), k, High(addr));
    AddrPair(r0, k, addr);
    var r1 := SetChannel(r0, k, r0.channels[k].(addr := addr));
    PageOut(r1, k, page);
    var r2 := SetChannel(r1, k, r1.channels[k].(page := page));
    CountPort(r2, k, Low(count));
    CountPort(WriteCount(r2, k, Low(count)), k, High(count));
    CountPair(r2, k, count);
  }

  lemma ProgramSetsChannel(r: Registers, addr: Word, page: Byte, count: Word)
    ensures ProgramFloppy(r, addr, page, count) ==
            SetChannel(r.(flipHi := false), 2, r.channels[2].(addr := addr, page := page, count := count))
  {
    ProgramsChannel(r, 2, addr, page, count);
  }

  lemma CountRead(r: Registers, k: ChannelNo)
    ensures InPort(r, 2 * k + 1) ==
            (r.(flipHi := !r.flipHi), ReadHalf(r.channels[k].count, r.flipHi))
  {
    RegisterPort(k);
  }

  /** With the flip-flop cleared, two reads of a count port return the whole register. */
  lemma CountReadsBack(r: Registers, k: ChannelNo)
    ensures var cleared := OutPort(r, 0x0C, 0);
            var (r1, lo) := InPort(cleared, 2 * k + 1);
            var (r2, hi) := InPort(r1, 2 * k + 1);
            Join(lo, hi) == r.channels[k].count && r2 == cleared
  {
    var cleared := r.(flipHi := false);
    FlipFlopPort(r, 0);
    CountRead(cleared, k);
    CountRead(cleared.(flipHi := true), k);
  }

  lemma AddrRead(r: Registers, k: ChannelNo)
    ensures InPort(r, 2 * k) == (r.(flipHi := !r.flipHi), ReadHalf(r.channels[k].addr, r.flipHi))
  {
    RegisterPort(k);
  }

  /** Address and page read back the same way. */
  lemma AddressReadsBack(r: Registers, k: ChannelNo)
    ensures var cleared := OutPort(r, 0x0C, 0);
            var (r1, lo) := InPort(cleared, 2 * k);
            var (r2, hi) := InPort(r1, 2 * k);
            lo + 0x100 * hi == r.channels[k].addr && r2 == cleared
    ensures InPort(r, PagePort(k)) == (r, r.channels[k].page)
  {
    var cleared := r.(flipHi := false);
    FlipFlopPort(r, 0);
    AddrRead(cleared, k);
    AddrRead(cleared.(flipHi := true), k);
  }

  // ----- Status and masks -----

  /** The weight of a channel's bit in status and mask. */
  function Weight(k: ChannelNo): int {
    [1, 2, 4, 8][k]
  }

  /** The status register shows Terminal Count bits once: reading it clears them and nothing else. */
  lemma StatusReadsOnce(r: Registers)
    ensures InPort(r, 0x08).1 == r.tcStatus && InPort(InPort(r, 0x08).0, 0x08).1 == 0
    ensures InPort(r, 0x08).0.channels == r.channels && InPort(r, 0x08).0.flipHi == r.flipHi
  {
  }

  /** The low four bits of a byte determine it with the rest. */
  lemma FourBits(h: int, b3: int, b2: int, b1: int, b0: int)
    requires 0 <= b3 <= 1 && 0 <= b2 <= 1 && 0 <= b1 <= 1 && 0 <= b0 <= 1
    ensures var v := 16 * h + 8 * b3 + 4 * b2 + 2 * b1 + b0;
            v / 8 % 2 == b3 && v / 4 % 2 == b2 && v / 2 % 2 == b1 && v / 1 % 2 == b0
  {
    var v := 16 * h + 8 * b3 + 4 * b2 + 2 * b1 + b0;
    QuotientIs(v, 8, 2 * h + b3, 4 * b2 + 2 * b1 + b0);
    QuotientIs(2 * h + b3, 2, h, b3);
    QuotientIs(v, 4, 4 * h + 2 * b3 + b2, 2 * b1 + b0);
    QuotientIs(4 * h + 2 * b3 + b2, 2, 2 * h + b3, b2);
    QuotientIs(v, 2, 8 * h + 4 * b3 + 2 * b2 + b1, b0);
    QuotientIs(8 * h + 4 * b3 + 2 * b2 + b1, 2, 4 * h + 2 * b3 + b2, b1);
  }

  lemma BitsOf(v: Byte)
    ensures v == 16 * (v / 16) + 8 * (v / 8 % 2) + 4 * (v / 4 % 2) + 2 * (v / 2 % 2) + v % 2
  {
    var a := v / 2;
    var b := a / 2;
    assert v / 4 == b && v / 8 == b / 2 && v / 16 == b / 2 / 2;
  }

  lemma SetStatusBit(v: Byte, k: ChannelNo, j: ChannelNo)
    ensures Bit(SetStatus(v, k), Weight(j)) <==> Bit(v, Weight(j)) || j == k
  {
    var h, b3, b2, b1, b0 := v / 16, v / 8 % 2, v / 4 % 2, v / 2 % 2, v % 2;
    BitsOf(v);
    if k == 0 {
      FourBits(h, b3, b2, b1, 1);
    } else if k == 1 {
      FourBits(h, b3, b2, 1, b0);
    } else if k == 2 {
      FourBits(h, b3, 1, b1, b0);
    } else {
      FourBits(h, 1, b2, b1, b0);
    }
  }

  /** A transfer that ends its count sets its channel's bit of the status, and no other bit. */
  lemma StatusShowsTerminalCount(r: Registers, k: ChannelNo, n: int, j: ChannelNo)
    ensures Bit(InPort(Transferred(r, k, n), 0x08).1, Weight(j)) <==>
            Bit(r.tcStatus, Weight(j)) || (j == k && TerminalCount(r.channels[k], n))
  {
    SetStatusBit(r.tcStatus, k, j);
  }

  /** Refresh shows Terminal Count in bit 0 once its count ran out, and no other bit. */
  lemma StatusShowsRefresh(r: Registers, p: nat, j: ChannelNo)
    ensures Bit(InPort(Refreshed(r, p), 0x08).1, Weight(j)) <==>
            Bit(r.tcStatus, Weight(j)) || (j == 0 && r.channels[0].count < p)
  {
    SetStatusBit(r.tcStatus, 0, j);
  }

  /** Single mask, mode and all-mask registers reach the channels they name. */
  lemma MaskPorts(r: Registers, v: Byte, j: ChannelNo)
    ensures var c := r.channels[j];
            && OutPort(r, 0x0A, v).channels[j] == (if v % 4 == j then c.(masked := v / 4 % 2 == 1) else c)
            && OutPort(r, 0x0B, v).channels[j] == (if v % 4 == j then c.(mode := v) else c)
            && OutPort(r, 0x0F, v).channels[j] == c.(masked := v / Weight(j) % 2 == 1)
  {
    if j == 0 {} else if j == 1 {} else if j == 2 {} else {}
  }

  /** The other ports and page addresses read as 0xFF and take no writes. */
  lemma OtherPorts(r: Registers, port: Word, v: Byte)
    requires if 0x80 <= port then port % 0x10 !in {1, 2, 3, 7} else port % 0x10 !in {0, 1, 2, 3, 4, 5, 6, 7, 8}
    ensures InPort(r, port) == (r, 0xFF)
    ensures 0x80 <= port || port % 0x10 !in {0x0A, 0x0B, 0x0C, 0x0D, 0x0F} ==> OutPort(r, port, v) == r
  {
  }

  /** Master clear: every channel masked and zero, flip-flop and status clear. */
  lemma MasterClears(r: Registers, v: Byte, j: ChannelNo)
    ensures var r' := OutPort(r, 0x0D, v);
            !r'.flipHi && r'.tcStatus == 0 && r'.channels[j] == Channel(0, 0, 0, 0, true)
  {
  }

  // ----- The chip -----

  class DMA {
    var channels: Channels
    var flipHi: bool
    var tcStatus: Byte

    ghost function State(): Registers
      reads this
    {
      Registers(channels, flipHi, tcStatus)
    }

    constructor ()
      ensures State() == RESET
    {
      channels := RESET.channels;
      flipHi, tcStatus := false, 0;
    }

    method WriteWord(reg: Word, value: Byte) returns (w: Word)
      modifies `flipHi
      ensures w == WriteHalf(reg, old(flipHi), value) && flipHi == !old(flipHi)
    {
      if !flipHi {
        w := reg / 0x100 * 0x100 + value;
      } else {
        w := reg % 0x100 + value * 0x100;
      }
      flipHi := !flipHi;
    }

    method ReadWord(reg: Word) returns (b: Byte)
      modifies `flipHi
      ensures b == ReadHalf(reg, old(flipHi)) && flipHi == !old(flipHi)
    {
      b := if !flipHi then Low(reg) else High(reg);
      flipHi := !flipHi;
    }

    method Out8(port: Word, value: Byte)
      modifies this
      ensures State() == OutPort(old(State()), port, value)
    {
      if port >= 0x80 {
        PageOut(port, value);
        return;
      }
      var p, k := port % 0x10, ChannelOf(port % 0x10);
      if p < 8 && p % 2 == 0 {
        var w := WriteWord(channels[k].addr, value);
        channels := channels[k := channels[k].(addr := w)];
      } else if p < 8 {
        var w := WriteWord(channels[k].count, value);
        channels := channels[k := channels[k].(count := w)];
      } else if p == 0x0A {
        channels := channels[value % 4 := channels[value % 4].(masked := Bit(value, 0x04))];
      } else if p == 0x0B {
        channels := channels[value % 4 := channels[value % 4].(mode := value)];
      } else if p == 0x0C {
        flipHi := false;
      } else if p == 0x0D {
        channels := RESET.channels;
        flipHi, tcStatus := false, 0;
      } else if p == 0x0F {
        for i := 0 to 4
          invariant flipHi == old(flipHi) && tcStatus == old(tcStatus)
          invariant forall j: ChannelNo | j < i ::
            channels[j] == old(channels)[j].(masked := Bit(value, ChannelBit(j)))
          invariant forall j | i <= j < 4 :: channels[j] == old(channels)[j]
        {
          channels := channels[i := channels[i].(masked := Bit(value, ChannelBit(i)))];
        }
      }
    }

    method In8(port: Word) returns (b: Byte)
      modifies this
      ensures (State(), b) == InPort(old(State()), port)
    {
      if port >= 0x80 {
        b := PageIn(port);
        return;
      }
      var p, k := port % 0x10, ChannelOf(port % 0x10);
      if p < 8 && p % 2 == 0 {
        b := ReadWord(channels[k].addr);
      } else if p < 8 {
        b := ReadWord(channels[k].count);
      } else if p == 0x08 {
        b := tcStatus;
        tcStatus := 0;
      } else {
        b := 0xFF;
      }
    }

    method PageOut(port: Word, value: Byte)
      requires 0x80 <= port
      modifies this
      ensures State() == OutPort(old(State()), port, value)
    {
      match PageChannel(port)
      case Some(ch) => channels := channels[ch := channels[ch].(page := value)];
      case None =>
    }

    method PageIn(port: Word) returns (b: Byte)
      requires 0x80 <= port
      ensures (State(), b) == InPort(State(), port)
    {
      match PageChannel(port)
      case Some(ch) => b := channels[ch].page;
      case None => b := 0xFF;
    }

    method RefreshCycle()
      modifies this
      ensures State() == RefreshOnce(old(State()))
    {
      var c := channels[0];
      if c.count == 0 {
        tcStatus := SetStatus(tcStatus, 0);
        channels := channels[0 := c.(count := 0xFFFF)];
      } else {
        channels := channels[0 := c.(count := c.count - 1)];
      }
    }

    static method WriteBlock(mem: Bus, base: nat, bytes: seq<Byte>)
      requires mem.Valid()
      modifies mem.data
      ensures mem.data[..] == Deposit(old(mem.data[..]), mem.rom, base, bytes)
    {
      ghost var before := mem.data[..];
      DepositNothing(before, mem.rom, base);
      for i := 0 to |bytes|
        invariant mem.data[..] == Deposit(before, mem.rom, base, bytes[..i])
      {
        WriteNext(mem, base, i, bytes[i], before, bytes[..i]);
        assert bytes[..i + 1] == bytes[..i] + [bytes[i]];
      }
      assert bytes[..|bytes|] == bytes;
    }

    /** Writes the byte after those already written from the base. */
    static method WriteNext(mem: Bus, base: nat, i: nat, b: Byte, ghost before: seq<Byte>, ghost written: seq<Byte>)
      requires mem.Valid() && |before| == SIZE && i == |written|
      requires mem.data[..] == Deposit(before, mem.rom, base, written)
      modifies mem.data
      ensures mem.data[..] == Deposit(before, mem.rom, base, written + [b])
    {
      var a := (base + i) % SIZE;
      WriteAt(mem, a, b);
      DepositSnoc(before, mem.rom, base, written, b);
    }

    /** A write to an address on the bus. */
    static method WriteAt(mem: Bus, a: nat, b: Byte)
      requires mem.Valid() && a < SIZE
      modifies mem.data
      ensures mem.data[..] == if IsRom(mem.rom, a) then old(mem.data[..]) else old(mem.data[..])[a := b]
    {
      assert a % SIZE == a;
      mem.Write8(a, b);
    }

    static method ReadBlock(mem: Bus, base: nat, n: nat) returns (out: seq<Byte>)
      requires mem.Valid()
      ensures out == Collect(mem.data[..], base, n)
    {
      out := [];
      for i := 0 to n
        invariant out == Collect(mem.data[..], base, i)
      {
        var b := mem.Read8((base + i) % SIZE);
        out := out + [b];
      }
    }

    /** Copies `bytes` to memory, at most as many as the channel accepts. */
    method TransferToMemory(k: ChannelNo, mem: Bus, bytes: seq<Byte>) returns (tc: bool)
      requires mem.Valid()
      modifies this, mem.data
      ensures (mem.data[..], State(), tc) == Into(old(mem.data[..]), mem.rom, old(State()), k, bytes)
    {
      var c := channels[k];
      var n := c.count + 1;
      if n > |bytes| {
        n := |bytes|;
      }
      WriteBlock(mem, Base(c), bytes[..n]);
      tc := AdvanceChannel(k, n);
    }

    /** Reads up to `len` bytes from memory, at most as many as the channel gives. */
    method TransferFromMemory(k: ChannelNo, mem: Bus, len: nat) returns (out: seq<Byte>, tc: bool)
      requires mem.Valid()
      modifies this
      ensures (out, State(), tc) == From(mem.data[..], old(State()), k, len)
    {
      var c := channels[k];
      var n := len;
      if n > c.count + 1 {
        n := c.count + 1;
      }
      out := ReadBlock(mem, Base(c), n);
      tc := AdvanceChannel(k, n);
    }

    method AdvanceChannel(k: ChannelNo, n: nat) returns (tc: bool)
      modifies this
      ensures State() == Transferred(old(State()), k, n)
      ensures tc == TerminalCount(old(channels)[k], n)
    {
      var c := channels[k];
      tc := n % 0x1_0000 > c.count;
      channels := channels[k := c.(addr := (c.addr + n) % 0x1_0000, count := (c.count - n) % 0x1_0000)];
      if tc {
        tcStatus := SetStatus(tcStatus, k);
      }
    }
  }
}
