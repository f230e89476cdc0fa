/** The 1 MB memory bus with write-protected ROM ranges. */
module Memory {
  import opened Bytes

  const SIZE := 0x10_0000

  /** An inclusive range of protected addresses; `hi < lo` protects nothing. */
  datatype RomRange = RomRange(lo: int, hi: int)

  predicate IsRom(rom: seq<RomRange>, addr: int) {
    exists r | r in rom :: r.lo <= addr <= r.hi
  }

  /** Where `addr` lies relative to `base` on the 20-bit bus. */
  function Distance(base: int, addr: int): (d: int)
    ensures 0 <= d < SIZE
  {
    (addr - base) % SIZE
  }

  /** Which of `n` bytes written one by one from `base` lands last on `addr`. */
  function LastOn(base: int, n: int, addr: int): (i: int)
    requires Distance(base, addr) < n
    ensures 0 <= i < n
    ensures n <= SIZE ==> i == Distance(base, addr)
  {
    Distance(base, addr) + SIZE * ((n - 1 - Distance(base, addr)) / SIZE)
  }

  /** Memory after `bytes` were written one by one from `base`, skipping ROM. */
  ghost function Deposit(mem: seq<Byte>, rom: seq<RomRange>, base: int, bytes: seq<Byte>): (r: seq<Byte>)
    requires |mem| == SIZE
    ensures |r| == SIZE
  {
    seq(SIZE, a requires 0 <= a < SIZE =>
      if Distance(base, a) < |bytes| && !IsRom(rom, a) then bytes[LastOn(base, |bytes|, a)] else mem[a])
  }

  /** The `n` bytes read one by one from `base`. */
  ghost function Collect(mem: seq<Byte>, base: int, n: int): (r: seq<Byte>)
    requires |mem| == SIZE && 0 <= n
    ensures |r| == n
  {
    seq(n, i requires 0 <= i < n => mem[(base + i) % SIZE])
  }

  lemma DepositNothing(mem: seq<Byte>, rom: seq<RomRange>, base: int)
    requires |mem| == SIZE
    ensures Deposit(mem, rom, base, []) == mem
  {
  }

  /** Residues by an explicit quotient. */
  lemma Residue(v: int, q: int, r: int)
    requires v == SIZE * q + r && 0 <= r < SIZE
    ensures v % SIZE == r && v / SIZE == q
  {
  }

  lemma CongruentSum(a: int, b: int, i: int)
    requires a % SIZE == b % SIZE
    ensures (a + i) % SIZE == (b + i) % SIZE
  {
    Residue(a + i, a / SIZE - b / SIZE + (b + i) / SIZE, (b + i) % SIZE);
  }

  lemma LastOnHit(base: int, n: int, addr: int)
    requires 0 <= n && addr == (base + n) % SIZE
    ensures Distance(base, addr) < n + 1 && LastOn(base, n + 1, addr) == n
  {
    Residue(addr - base, n / SIZE - (base + n) / SIZE, n % SIZE);
  }

  lemma LastOnMiss(base: int, n: int, addr: int)
    requires 0 <= addr < SIZE && 0 <= n && addr != (base + n) % SIZE
    ensures Distance(base, addr) < n + 1 <==> Distance(base, addr) < n
    ensures Distance(base, addr) < n ==> LastOn(base, n + 1, addr) == LastOn(base, n, addr)
  {
    var d := Distance(base, addr);
    var gap := n - d;
    if gap % SIZE == 0 {
      Residue(base + n, gap / SIZE - (addr - base) / SIZE, addr);
    } else if 0 < gap {
      Residue(gap - 1, gap / SIZE, gap % SIZE - 1);
    }
  }

  lemma DepositSnoc(mem: seq<Byte>, rom: seq<RomRange>, base: int, bytes: seq<Byte>, b: Byte)
    requires |mem| == SIZE
    ensures var a := (base + |bytes|) % SIZE;
            Deposit(mem, rom, base, bytes + [b]) ==
            if IsRom(rom, a) then Deposit(mem, rom, base, bytes)
            else Deposit(mem, rom, base, bytes)[a := b]
  {
    LastOnHit(base, |bytes|, (base + |bytes|) % SIZE);
    forall x | 0 <= x < SIZE && x != (base + |bytes|) % SIZE {
      LastOnMiss(base, |bytes|, x);
    }
  }

  lemma DistanceBack(base: int, i: int)
    requires 0 <= i < SIZE
    ensures Distance(base, (base + i) % SIZE) == i
  {
    Residue((base + i) % SIZE - base, 0 - (base + i) / SIZE, i);
  }

  lemma DistanceForth(base: int, a: int)
    requires 0 <= a < SIZE
    ensures (base + Distance(base, a)) % SIZE == a
  {
    Residue(base + Distance(base, a), 0 - (a - base) / SIZE, a);
  }

  /** Two deposits end to end are one deposit of the concatenation. */
  lemma DepositAppend(mem: seq<Byte>, rom: seq<RomRange>, base: int, x: seq<Byte>, y: seq<Byte>, next: int)
    requires |mem| == SIZE && |x| + |y| <= SIZE
    requires next % SIZE == (base + |x|) % SIZE
    ensures Deposit(Deposit(mem, rom, base, x), rom, next, y) == Deposit(mem, rom, base, x + y)
  {
    forall a | 0 <= a < SIZE
      ensures Distance(next, a) < |y| <==> |x| <= Distance(base, a) < |x| + |y|
      ensures Distance(next, a) < |y| ==> Distance(next, a) == Distance(base, a) - |x|
    {
      DistanceShift(base, |x|, next, a);
    }
  }

  lemma DistanceShift(base: int, n: int, next: int, addr: int)
    requires next % SIZE == (base + n) % SIZE && 0 <= n <= SIZE
    ensures Distance(next, addr) ==
            if n <= Distance(base, addr) then Distance(base, addr) - n else Distance(base, addr) - n + SIZE
  {
    var d := Distance(base, addr);
    var q := (addr - base) / SIZE + (base + n) / SIZE - next / SIZE;
    if n <= d {
      Residue(addr - next, q, d - n);
    } else {
      Residue(addr - next, q - 1, d - n + SIZE);
    }
  }

  /** Two collections end to end are one. */
  lemma CollectAppend(mem: seq<Byte>, base: int, n: int, m: int, next: int)
    requires |mem| == SIZE && 0 <= n && 0 <= m
    requires next % SIZE == (base + n) % SIZE
    ensures Collect(mem, base, n) + Collect(mem, next, m) == Collect(mem, base, n + m)
  {
    forall i | 0 <= i < m ensures Collect(mem, next, m)[i] == Collect(mem, base, n + m)[n + i] {
      CongruentSum(next, base + n, i);
    }
  }

  class Bus {
    const data: array<Byte>
    var rom: seq<RomRange>

    ghost predicate Valid()
      reads this
    {
      data.Length == SIZE
    }

    constructor ()
      ensures Valid() && fresh(data) && rom == []
      ensures forall a | 0 <= a < SIZE :: data[a] == 0
    {
      data := new Byte[SIZE](_ => 0);
      rom := [];
    }

    method Read8(addr: DWord) returns (b: Byte)
      requires Valid()
      ensures b == data[addr % SIZE]
    {
      b := data[addr % SIZE];
    }

    method IsROM(addr: int) returns (found: bool)
      ensures found == IsRom(rom, addr)
    {
      for i := 0 to |rom|
        invariant forall k | 0 <= k < i :: !(rom[k].lo <= addr <= rom[k].hi)
      {
        if addr >= rom[i].lo && addr <= rom[i].hi {
          return true;
        }
      }
      found := false;
    }

    method Write8(addr: DWord, value: Byte)
      requires Valid()
      modifies data
      ensures data[..] == if IsRom(rom, addr % SIZE) then old(data[..])
                          else old(data[..])[addr % SIZE := value]
    {
      var a := addr % SIZE;
      var protected := IsROM(a);
      if protected {
        return;
      }
      data[a] := value;
    }

    /** Copies bytes to memory from `addr`, ROM or not. */
    method LoadRAM(addr: DWord, bytes: seq<Byte>)
      requires Valid()
      modifies data
      ensures data[..] == Deposit(old(data[..]), [], addr, bytes)
    {
      DepositNothing(data[..], [], addr);
      ghost var before := data[..];
      for i := 0 to |bytes|
        invariant data[..] == Deposit(before, [], addr, bytes[..i])
      {
        DepositSnoc(before, [], addr, bytes[..i], bytes[i]);
        assert bytes[..i] + [bytes[i]] == bytes[..i + 1];
        data[(addr + i) % SIZE] := bytes[i];
      }
      assert bytes[..|bytes|] == bytes;
    }

    method LoadROM(addr: DWord, bytes: seq<Byte>)
      requires Valid()
      modifies this, data
      ensures data[..] == Deposit(old(data[..]), [], addr, bytes)
      ensures rom == if bytes == [] then old(rom) else old(rom) + [RomOf(addr, |bytes|)]
    {
      if |bytes| == 0 {
        DepositNothing(data[..], [], addr);
        return;
      }
      LoadRAM(addr, bytes);
      rom := rom + [RomRange(addr % SIZE, (addr + |bytes| - 1) % SIZE)];
    }
  }

  /** The range recorded for an image of `n` bytes loaded at `addr`. */
  function RomOf(addr: int, n: int): RomRange {
    RomRange(addr % SIZE, (addr + n - 1) % SIZE)
  }

  /**
   Loading an image as ROM protects all of it exactly when it does not wrap past the top
   of memory, or fills memory a whole number of times from its bottom.
   */
  lemma RomProtectsItself(addr: DWord, n: int)
    requires 0 < n
    ensures (forall a | 0 <= a < SIZE && Distance(addr, a) < n :: IsRom([RomOf(addr, n)], a))
            <==> addr % SIZE + n <= SIZE || (addr % SIZE == 0 && n % SIZE == 0)
  {
    if n <= SIZE {
      ShortRomProtectsItself(addr, n);
    } else {
      LongRomProtectsItself(addr, n);
    }
  }

  /** An image longer than memory covers all of it, so its range has to be all of it. */
  lemma LongRomProtectsItself(addr: DWord, n: int)
    requires SIZE < n
    ensures (forall a | 0 <= a < SIZE && Distance(addr, a) < n :: IsRom([RomOf(addr, n)], a))
            <==> addr % SIZE == 0 && n % SIZE == 0
  {
    var r := RomOf(addr, n);
    var top := addr % SIZE + n % SIZE - 1;
    var q := addr / SIZE + n / SIZE;
    assert r in [r] && addr + n - 1 == SIZE * q + top;
    Residue(addr + n - 1, if top < 0 then q - 1 else if top < SIZE then q else q + 1, r.hi);
    if addr % SIZE == 0 && n % SIZE == 0 {
      assert r == RomRange(0, SIZE - 1);
    } else {
      assert Distance(addr, 0) < n && Distance(addr, SIZE - 1) < n;
      assert !IsRom([r], 0) || !IsRom([r], SIZE - 1);
    }
  }

  lemma ShortRomProtectsItself(addr: DWord, n: int)
    requires 0 < n <= SIZE
    ensures (forall a | 0 <= a < SIZE && Distance(addr, a) < n :: IsRom([RomOf(addr, n)], a))
            <==> addr % SIZE + n <= SIZE
  {
    var r, lo, q := RomOf(addr, n), addr % SIZE, addr / SIZE;
    assert r in [r];
    if lo + n <= SIZE {
      Residue(addr + n - 1, q, lo + n - 1);
      forall a | 0 <= a < SIZE && Distance(addr, a) < n ensures IsRom([r], a) {
        DistanceForth(addr, a);
        Residue(addr + Distance(addr, a), q, lo + Distance(addr, a));
        assert r.lo <= a <= r.hi;
      }
    } else {
      Residue(addr + n - 1, q + 1, lo + n - 1 - SIZE);
      Residue(lo - addr, 0 - q, 0);
      assert Distance(addr, lo) < n && !IsRom([r], lo);
    }
  }

  /**
   A BIOS image loaded at the top of memory covers the addresses up to 0xFFFFF, the
   reset vector at 0xFFFF0 among them if it has at least 16 bytes, and protects them.
   Of an image longer than memory only what a whole number of memories leaves is protected.
   */
  lemma BiosAtTop(n: int, addr: int)
    requires 0 < n && 0 <= addr < SIZE
    ensures IsRom([RomOf(ToDWord(SIZE - n), n)], addr) <==> (SIZE - n) % SIZE <= addr
    ensures Distance(ToDWord(SIZE - n), addr) < n <==> SIZE - n <= addr
  {
    if n <= SIZE {
      ShortBiosAtTop(n, addr);
    } else {
      LongBiosAtTop(n, addr);
    }
  }

  lemma LongBiosAtTop(n: int, addr: int)
    requires SIZE < n && 0 <= addr < SIZE
    ensures IsRom([RomOf(ToDWord(SIZE - n), n)], addr) <==> (SIZE - n) % SIZE <= addr
  {
    var base := ToDWord(SIZE - n);
    var r := RomOf(base, n);
    var q := (SIZE - n) / 0x1_0000_0000;
    assert base == SIZE - n - 0x1_0000_0000 * q;
    Residue(base, (SIZE - n) / SIZE - 0x1000 * q, (SIZE - n) % SIZE);
    Residue(base + n - 1, 0 - 0x1000 * q, SIZE - 1);
    assert r in [r] && r == RomRange((SIZE - n) % SIZE, SIZE - 1);
  }

  lemma ShortBiosAtTop(n: int, addr: int)
    requires 0 < n <= SIZE && 0 <= addr < SIZE
    ensures IsRom([RomOf(ToDWord(SIZE - n), n)], addr) <==> (SIZE - n) % SIZE <= addr
    ensures Distance(ToDWord(SIZE - n), addr) < n <==> SIZE - n <= addr
  {
    var r := RomOf(ToDWord(SIZE - n), n);
    assert r in [r] && r == RomRange((SIZE - n) % SIZE, SIZE - 1);
    if SIZE - n <= addr {
      Residue(addr - (SIZE - n), 0, addr - (SIZE - n));
    } else {
      Residue(addr - (SIZE - n), -1, addr + n);
    }
  }

  /** A protected byte survives any write. */
  lemma RomSurvives(mem: seq<Byte>, rom: seq<RomRange>, base: int, bytes: seq<Byte>, addr: int)
    requires |mem| == SIZE && 0 <= addr < SIZE && IsRom(rom, addr)
    ensures Deposit(mem, rom, base, bytes)[addr] == mem[addr]
  {
  }
}
