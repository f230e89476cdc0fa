/** The MDA and CGA adapters in 80x25 text mode: CRTC registers, cursor and screen. */
module TextVideo {
  import opened Bytes
  import Memory

  const COLUMNS := 80
  const ROWS := 25

  /** The adapters differ in video RAM, ports and page size in cells. */
  datatype Kind = MDA | CGA

  function Base(k: Kind): int {
    if k.MDA? then 0xB_0000 else 0xB_8000
  }

  function PortBase(k: Kind): int {
    if k.MDA? then 0x3B4 else 0x3D4
  }

  /** Cells in a page; cell addresses wrap at this number. */
  function PageCells(k: Kind): (n: int)
    ensures n == 0x800 || n == 0x2000
  {
    if k.MDA? then 0x800 else 0x2000
  }

  type Crtc = s: seq<Byte> | |s| == 18 witness [0, 0, 0, 0, 0, 0, 0, 0, 0, 0, 0, 0, 0, 0, 0, 0, 0, 0]

  function CursorOffset(crtc: Crtc): int {
    Join(crtc[15], crtc[14])
  }

  function StartOffset(crtc: Crtc): int {
    Join(crtc[13], crtc[12])
  }

  datatype Position = Position(row: int, col: int, visible: bool)

  /** Cursor position relative to the start of the displayed page. */
  function CursorPos(k: Kind, crtc: Crtc): Position {
    var off := (CursorOffset(crtc) - StartOffset(crtc)) % PageCells(k);
    Position(off / COLUMNS, off % COLUMNS, !Bit(crtc[10], 0x20) && off / COLUMNS < ROWS)
  }

  /** The page cell drawn at a screen position. */
  function CellAt(k: Kind, crtc: Crtc, row: int, col: int): int {
    (StartOffset(crtc) + row * COLUMNS + col) % PageCells(k)
  }

  /** The address of the cell's character in memory. */
  function CellAddress(k: Kind, crtc: Crtc, row: int, col: int): int {
    Base(k) + 2 * CellAt(k, crtc, row, col)
  }

  predicate OnScreen(row: int, col: int) {
    0 <= row < ROWS && 0 <= col < COLUMNS
  }

  /** A difference taken modulo the page leads back to the cursor, even below the start. */
  lemma PageOffset(k: Kind, start: int, cursor: int)
    ensures (start + (cursor - start) % PageCells(k)) % PageCells(k) == cursor % PageCells(k)
  {
    var d := cursor - start;
    if k.MDA? {
      QuotientIs(start + d % 0x800, 0x800, cursor / 0x800 - d / 0x800, cursor % 0x800);
    } else {
      QuotientIs(start + d % 0x2000, 0x2000, cursor / 0x2000 - d / 0x2000, cursor % 0x2000);
    }
  }

  /** The screen position shows the cell that CRTC registers 14 and 15 put the cursor on. */
  predicate ShowsCursor(k: Kind, crtc: Crtc, row: int, col: int) {
    OnScreen(row, col) && CellAt(k, crtc, row, col) == CursorOffset(crtc) % PageCells(k)
  }

  /**
   Cursor and screen agree for every CRTC setting: the cursor is visible iff it is
   enabled and some screen position shows its cell, and then the reported position is
   the one that does.
   */
  lemma CursorIsDrawn(k: Kind, crtc: Crtc)
    ensures var c := CursorPos(k, crtc);
            && (c.visible ==> ShowsCursor(k, crtc, c.row, c.col))
            && (c.visible <==> (!Bit(crtc[10], 0x20) && exists row, col :: ShowsCursor(k, crtc, row, col)))
  {
    var c := CursorPos(k, crtc);
    if c.row < ROWS {
      CursorCell(k, crtc);
      assert ShowsCursor(k, crtc, c.row, c.col);
    }
    forall row, col | ShowsCursor(k, crtc, row, col) ensures c.row < ROWS {
      OnlyCursorCell(k, crtc, row, col);
    }
  }

  /** The cursor's distance from the start of the screen, in cells. */
  function Distance(k: Kind, crtc: Crtc): (d: int)
    ensures 0 <= d < PageCells(k)
  {
    (CursorOffset(crtc) - StartOffset(crtc)) % PageCells(k)
  }

  lemma CursorCell(k: Kind, crtc: Crtc)
    ensures var c := CursorPos(k, crtc);
            c.row * COLUMNS + c.col == Distance(k, crtc) && 0 <= c.row && 0 <= c.col < COLUMNS
            && CellAt(k, crtc, c.row, c.col) == CursorOffset(crtc) % PageCells(k)
  {
    var d := Distance(k, crtc);
    RowAndColumn(d);
    PageOffset(k, StartOffset(crtc), CursorOffset(crtc));
    assert StartOffset(crtc) + d / COLUMNS * COLUMNS + d % COLUMNS == StartOffset(crtc) + d;
  }

  lemma RowAndColumn(d: int)
    requires 0 <= d
    ensures d / COLUMNS * COLUMNS + d % COLUMNS == d && 0 <= d / COLUMNS && 0 <= d % COLUMNS < COLUMNS
  {
  }

  lemma OnlyCursorCell(k: Kind, crtc: Crtc, row: int, col: int)
    requires ShowsCursor(k, crtc, row, col)
    ensures row * COLUMNS + col == Distance(k, crtc) && CursorPos(k, crtc).row == row
  {
    CursorCell(k, crtc);
    SameCell(k, StartOffset(crtc), row * COLUMNS + col, Distance(k, crtc));
    QuotientIs(Distance(k, crtc), COLUMNS, row, col);
  }

  lemma SameCell(k: Kind, start: int, i: int, j: int)
    requires 0 <= i < PageCells(k) && 0 <= j < PageCells(k)
    ensures (start + i) % PageCells(k) == (start + j) % PageCells(k) ==> i == j
  {
    if k.MDA? {
      assert i - j
          == 0x800 * ((start + i) / 0x800 - (start + j) / 0x800) + (start + i) % 0x800 - (start + j) % 0x800;
    } else {
      assert i - j
          == 0x2000 * ((start + i) / 0x2000 - (start + j) / 0x2000) + (start + i) % 0x2000 - (start + j) % 0x2000;
    }
  }

  /** The 2000 cells drawn are different addresses inside the adapter's page. */
  lemma CellsDistinct(k: Kind, crtc: Crtc, row: int, col: int, row': int, col': int)
    requires OnScreen(row, col) && OnScreen(row', col')
    ensures Base(k) <= CellAddress(k, crtc, row, col) < Base(k) + 2 * PageCells(k) <= Memory.SIZE
    ensures CellAddress(k, crtc, row, col) == CellAddress(k, crtc, row', col') ==> (row, col) == (row', col')
  {
    SameCell(k, StartOffset(crtc), row * COLUMNS + col, row' * COLUMNS + col');
  }

  /** The ASCII rendering of a code page 437 character. */
  function Printable(b: Byte): char {
    if b == 0x00 || b == 0x20 then ' ' else if 0x21 <= b <= 0x7E then b as char else '.'
  }

  /**
   What is drawn at a screen position: the character byte - the even one of the two - of the
   cell counted from registers 12 and 13, in the 4 KB page of the MDA at 0xB0000 or the
   16 KB page of the CGA at 0xB8000.
   */
  lemma CellAddresses(crtc: Crtc, row: int, col: int)
    ensures PortBase(MDA) == 0x3B4 && PortBase(CGA) == 0x3D4
    ensures CursorOffset(crtc) == 0x100 * crtc[14] as int + crtc[15] as int
    ensures PageCells(MDA) == 2048 && PageCells(CGA) == 8192
    ensures OnScreen(row, col) <==> 0 <= row < 25 && 0 <= col < 80
    ensures var cell := 0x100 * crtc[12] as int + crtc[13] as int + 80 * row + col;
            && CellAddress(MDA, crtc, row, col) == 0xB_0000 + 2 * (cell % 2048)
            && CellAddress(CGA, crtc, row, col) == 0xB_8000 + 2 * (cell % 8192)
  {
  }

  /** Blanks and NUL are drawn as blanks, printable ASCII as itself, and everything else as a dot. */
  lemma DrawnAs(b: Byte)
    ensures (0x21 <= b <= 0x7E) ==> Printable(b) as int == b
    ensures Printable(b) == ' ' <==> b == 0 || b == 0x20
    ensures Printable(b) == '.' <==> b == 0x2E || 1 <= b < 0x20 || 0x7F <= b
  {
  }

  /** Where a screen position is in the rendered text; column 80 is the line feed. */
  function Index(row: int, col: int): int {
    row * (COLUMNS + 1) + col
  }

  /** The text runs line by line: after a line of 80 characters and its line feed comes the next. */
  lemma TextOrder(row: int, col: int)
    ensures Index(0, 0) == 0 && Index(row, col + 1) == Index(row, col) + 1
    ensures Index(row + 1, 0) == Index(row, 80) + 1
  {
  }

  /** Bits 0 and 3, the retrace bits of the status, inverted. */
  function Toggled(s: Byte): Byte {
    s + (if s % 2 == 0 then 1 else -1) + (if s / 8 % 2 == 0 then 8 else -8)
  }

  /** A program that waits for either edge of a retrace bit sees it within two reads of the status. */
  lemma RetraceAlternates(s: Byte)
    ensures Bit(Toggled(s), 0x01) != Bit(s, 0x01) && Bit(Toggled(s), 0x08) != Bit(s, 0x08)
    ensures Toggled(Toggled(s)) == s
  {
  }

  /** The first `rows` lines of the screen: 80 characters from memory and a line feed each. */
  ghost predicate Shows(k: Kind, crtc: Crtc, mem: seq<Byte>, s: string, rows: int)
    requires |mem| == Memory.SIZE
  {
    && |s| == Index(rows, 0)
    && (forall row | 0 <= row < rows :: s[Index(row, COLUMNS)] == '\n')
    && forall row, col | 0 <= row < rows && 0 <= col < COLUMNS ::
         s[Index(row, col)] == Printable(mem[CellAddress(k, crtc, row, col)])
  }

  lemma ShowsLine(k: Kind, crtc: Crtc, mem: seq<Byte>, s: string, rows: int, line: string)
    requires |mem| == Memory.SIZE && 0 <= rows && Shows(k, crtc, mem, s, rows) && |line| == COLUMNS
    requires forall col | 0 <= col < COLUMNS :: line[col] == Printable(mem[CellAddress(k, crtc, rows, col)])
    ensures Shows(k, crtc, mem, s + line + "\n", rows + 1)
  {
    var s' := s + line + "\n";
    forall row | 0 <= row < rows + 1 ensures s'[Index(row, COLUMNS)] == '\n' {
      assert row < rows ==> s[Index(row, COLUMNS)] == '\n';
    }
    forall row, col | 0 <= row < rows + 1 && 0 <= col < COLUMNS
      ensures s'[Index(row, col)] == Printable(mem[CellAddress(k, crtc, row, col)])
    {
      if row < rows {
        assert s[Index(row, col)] == Printable(mem[CellAddress(k, crtc, row, col)]);
      } else {
        assert s'[Index(row, col)] == line[col];
      }
    }
  }

  class Adapter {
    const kind: Kind
    var index: Byte
    var crtc: Crtc
    var mode: Byte
    var status: Byte

    constructor (kind: Kind)
      ensures this.kind == kind && index == 0 && mode == 0 && status == 0
      ensures forall i | 0 <= i < 18 :: crtc[i] == 0
    {
      this.kind := kind;
      index, mode, status := 0, 0, 0;
      crtc := [0, 0, 0, 0, 0, 0, 0, 0, 0, 0, 0, 0, 0, 0, 0, 0, 0, 0];
    }

    method Out8(port: Word, value: Byte)
      modifies this
      ensures index == if port == PortBase(kind) then value % 0x20 else old(index)
      ensures crtc == if port == PortBase(kind) + 1 && old(index) < 18 then old(crtc)[old(index) := value]
                      else old(crtc)
      ensures mode == if port == PortBase(kind) + 4 then value else old(mode)
      ensures status == old(status)
    {
      if port == PortBase(kind) {
        index := value % 0x20;
      } else if port == PortBase(kind) + 1 {
        if index < 18 {
          crtc := crtc[index := value];
        }
      } else if port == PortBase(kind) + 4 {
        mode := value;
      }
    }

    /** Registers and mode read back; each read of the status inverts its retrace bits. */
    method In8(port: Word) returns (b: Byte)
      modifies this`status
      ensures status == if port == PortBase(kind) + 6 then Toggled(old(status)) else old(status)
      ensures b == if port == PortBase(kind) then index
                   else if port == PortBase(kind) + 1 then (if index < 18 then crtc[index] else 0)
                   else if port == PortBase(kind) + 4 then mode
                   else if port == PortBase(kind) + 6 then status
                   else 0xFF
    {
      if port == PortBase(kind) {
        b := index;
      } else if port == PortBase(kind) + 1 {
        b := if index < 18 then crtc[index] else 0;
      } else if port == PortBase(kind) + 4 {
        b := mode;
      } else if port == PortBase(kind) + 6 {
        status := Toggled(status);
        b := status;
      } else {
        b := 0xFF;
      }
    }

    method CursorAt() returns (row: int, col: int, visible: bool)
      ensures CursorPos(kind, crtc) == Position(row, col, visible)
    {
      var off := (CursorOffset(crtc) - StartOffset(crtc)) % PageCells(kind);
      row, col := off / COLUMNS, off % COLUMNS;
      visible := !Bit(crtc[10], 0x20) && row < ROWS;
    }

    method Render(mem: Memory.Bus) returns (s: string)
      requires mem.Valid()
      ensures Shows(kind, crtc, mem.data[..], s, 25) && |s| == 2025
    {
      s := "";
      for r := 0 to ROWS
        invariant Shows(kind, crtc, mem.data[..], s, r)
      {
        var line := RenderLine(mem, r);
        ShowsLine(kind, crtc, mem.data[..], s, r, line);
        s := s + line + "\n";
      }
    }

    method RenderLine(mem: Memory.Bus, r: int) returns (line: string)
      requires mem.Valid() && 0 <= r < ROWS
      ensures |line| == COLUMNS
      ensures forall col | 0 <= col < COLUMNS ::
        line[col] == Printable(mem.data[CellAddress(kind, crtc, r, col)])
    {
      line := "";
      for c := 0 to COLUMNS
        invariant |line| == c
        invariant forall col | 0 <= col < c ::
          line[col] == Printable(mem.data[CellAddress(kind, crtc, r, col)])
      {
        var cell := (StartOffset(crtc) + r * COLUMNS + c) % PageCells(kind);
        var b := mem.Read8(Base(kind) + 2 * cell);
        line := line + [Printable(b)];
      }
    }
  }
}
