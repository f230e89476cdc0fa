/**
 Text to set-1 scan codes (US layout): the key map, the make and break codes of a key
 with its modifiers, and typing a string.
 */
module Scancodes {
  import opened Bytes
  import Ppi

  const SHIFT_MAKE: Byte := 0x2A
  const SHIFT_BREAK: Byte := 0xAA
  const CTRL_MAKE: Byte := 0x1D
  const CTRL_BREAK: Byte := 0x9D
  const ALT_MAKE: Byte := 0x38
  const ALT_BREAK: Byte := 0xB8
  const EXTENDED: Byte := 0xE0

  datatype Mods = Mods(shift: bool, ctrl: bool, alt: bool)

  const NO_MODS := Mods(false, false, false)

  /** A key by its make code; extended keys send a prefix before make and break. */
  datatype Key = Key(code: Byte, extended: bool)

  /** Make codes are seven bits, and the break of 0x60 would read as the prefix. */
  predicate IsKey(k: Key) {
    k.code < 0x80 && k.code != 0x60
  }

  /** `code | 0x80`. */
  function Break(code: Byte): Byte {
    if code < 0x80 then code + 0x80 else code
  }

  const KEY_ESC := Key(0x01, false)
  const KEY_BACKSPACE := Key(0x0E, false)
  const KEY_TAB := Key(0x0F, false)
  const KEY_ENTER := Key(0x1C, false)

  // ----- The key map -----

  /** An alphanumeric key: its make code and its characters without and with Shift. */
  datatype Row = Row(code: Byte, lo: char, hi: char)

  const ROWS: int := 48

  type RowNo = i: int | 0 <= i < ROWS

  function UsRow(i: RowNo): Row {
    match i
    case 0 => Row(0x02, '1', '!')
    case 1 => Row(0x03, '2', '@')
    case 2 => Row(0x04, '3', '#')
    case 3 => Row(0x05, '4', '$')
    case 4 => Row(0x06, '5', '%')
    case 5 => Row(0x07, '6', '^')
    case 6 => Row(0x08, '7', '&')
    case 7 => Row(0x09, '8', '*')
    case 8 => Row(0x0A, '9', '(')
    case 9 => Row(0x0B, '0', ')')
    case 10 => Row(0x0C, '-', '_')
    case 11 => Row(0x0D, '=', '+')
    case 12 => Row(0x10, 'q', 'Q')
    case 13 => Row(0x11, 'w', 'W')
    case 14 => Row(0x12, 'e', 'E')
    case 15 => Row(0x13, 'r', 'R')
    case 16 => Row(0x14, 't', 'T')
    case 17 => Row(0x15, 'y', 'Y')
    case 18 => Row(0x16, 'u', 'U')
    case 19 => Row(0x17, 'i', 'I')
    case 20 => Row(0x18, 'o', 'O')
    case 21 => Row(0x19, 'p', 'P')
    case 22 => Row(0x1A, '[', '{')
    case 23 => Row(0x1B, ']', '}')
    case 24 => Row(0x1E, 'a', 'A')
    case 25 => Row(0x1F, 's', 'S')
    case 26 => Row(0x20, 'd', 'D')
    case 27 => Row(0x21, 'f', 'F')
    case 28 => Row(0x22, 'g', 'G')
    case 29 => Row(0x23, 'h', 'H')
    case 30 => Row(0x24, 'j', 'J')
    case 31 => Row(0x25, 'k', 'K')
    case 32 => Row(0x26, 'l', 'L')
    case 33 => Row(0x27, ';', ':')
    case 34 => Row(0x28, '\'', '\"')
    case 35 => Row(0x29, '`', '~')
    case 36 => Row(0x2B, '\\', '|')
    case 37 => Row(0x2C, 'z', 'Z')
    case 38 => Row(0x2D, 'x', 'X')
    case 39 => Row(0x2E, 'c', 'C')
    case 40 => Row(0x2F, 'v', 'V')
    case 41 => Row(0x30, 'b', 'B')
    case 42 => Row(0x31, 'n', 'N')
    case 43 => Row(0x32, 'm', 'M')
    case 44 => Row(0x33, ',', '<')
    case 45 => Row(0x34, '.', '>')
    case 46 => Row(0x35, '/', '?')
    case _ => Row(0x39, ' ', ' ')
  }

  /** The row with this make code: the codes run in blocks. */
  function RowOf(code: Byte): Option<RowNo> {
    if 0x02 <= code < 0x0E then Some(code - 0x02)
    else if 0x10 <= code < 0x1C then Some(code - 0x10 + 12)
    else if 0x1E <= code < 0x2A then Some(code - 0x1E + 24)
    else if 0x2B <= code < 0x36 then Some(code - 0x2B + 36)
    else if code == 0x39 then Some(47)
    else None
  }

  /** Make codes identify their row; only printable ASCII is on the keys. */
  lemma RowFacts(i: RowNo)
    ensures RowOf(UsRow(i).code) == Some(i) && UsRow(i).code <= 0x39
    ensures ' ' <= UsRow(i).lo <= '~' && ' ' <= UsRow(i).hi <= '~'
    ensures !('a' <= UsRow(i).hi <= 'z')
  {
  }

  /**
   What a US keyboard shows on its keys, by make code: the number row from 0x02, the
   letter rows from 0x10, 0x1E and 0x2B, and the space bar.
   */
  function Symbol(code: Byte, shift: bool): Option<char> {
    if 0x02 <= code <= 0x0D then Some((if shift then "!@#$%^&*()_+" else "1234567890-=")[code - 0x02])
    else if 0x10 <= code <= 0x1B then Some((if shift then "QWERTYUIOP{}" else "qwertyuiop[]")[code - 0x10])
    else if 0x1E <= code <= 0x29 then Some((if shift then "ASDFGHJKL:\"~" else "asdfghjkl;'`")[code - 0x1E])
    else if 0x2B <= code <= 0x35 then Some((if shift then "|ZXCVBNM<>?" else "\\zxcvbnm,./")[code - 0x2B])
    else if code == 0x39 then Some(' ')
    else None
  }

  /** The key of the row shows its characters. */
  predicate Shown(i: RowNo) {
    && Symbol(UsRow(i).code, false) == Some(UsRow(i).lo)
    && Symbol(UsRow(i).code, true) == Some(UsRow(i).hi)
  }

  lemma NumberRowKeys(i: RowNo)
    requires i < 12
    ensures UsRow(i) == Row(0x02 + i, "1234567890-="[i], "!@#$%^&*()_+"[i])
  {
  }

  lemma UpperRowKeys(i: RowNo)
    requires 12 <= i < 24
    ensures UsRow(i) == Row(0x10 + (i - 12), "qwertyuiop[]"[i - 12], "QWERTYUIOP{}"[i - 12])
  {
  }

  lemma HomeRowKeys(i: RowNo)
    requires 24 <= i < 36
    ensures UsRow(i) == Row(0x1E + (i - 24), "asdfghjkl;'`"[i - 24], "ASDFGHJKL:\"~"[i - 24])
  {
  }

  lemma LowerRowKeys(i: RowNo)
    requires 36 <= i < 47
    ensures UsRow(i) == Row(0x2B + (i - 36), "\\zxcvbnm,./"[i - 36], "|ZXCVBNM<>?"[i - 36])
  {
  }

  /** The table agrees with the keyboard. */
  lemma RowsShown(i: RowNo)
    ensures Shown(i)
  {
    if i < 12 {
      NumberRowKeys(i);
    } else if i < 24 {
      UpperRowKeys(i);
    } else if i < 36 {
      HomeRowKeys(i);
    } else if i < 47 {
      LowerRowKeys(i);
    }
  }

  predicate InRow(i: RowNo, c: char) {
    UsRow(i).lo == c || UsRow(i).hi == c
  }

  /** The row a printable character is on. */
  function RowWith(c: char): RowNo {
    if '1' <= c <= '9' then c as int - '1' as int
    else if 'a' <= c <= 'z' then LetterRow(c)
    else if 'A' <= c <= 'Z' then CapitalRow(c)
    else MarkRow(c)
  }

  function LetterRow(c: char): RowNo {
    match c
    case 'q' => 12 case 'w' => 13 case 'e' => 14 case 'r' => 15 case 't' => 16 case 'y' => 17
    case 'u' => 18 case 'i' => 19 case 'o' => 20 case 'p' => 21 case 'a' => 24 case 's' => 25
    case 'd' => 26 case 'f' => 27 case 'g' => 28 case 'h' => 29 case 'j' => 30 case 'k' => 31
    case 'l' => 32 case 'z' => 37 case 'x' => 38 case 'c' => 39 case 'v' => 40 case 'b' => 41
    case 'n' => 42 case _ => 43
  }

  function CapitalRow(c: char): RowNo {
    match c
    case 'Q' => 12 case 'W' => 13 case 'E' => 14 case 'R' => 15 case 'T' => 16 case 'Y' => 17
    case 'U' => 18 case 'I' => 19 case 'O' => 20 case 'P' => 21 case 'A' => 24 case 'S' => 25
    case 'D' => 26 case 'F' => 27 case 'G' => 28 case 'H' => 29 case 'J' => 30 case 'K' => 31
    case 'L' => 32 case 'Z' => 37 case 'X' => 38 case 'C' => 39 case 'V' => 40 case 'B' => 41
    case 'N' => 42 case _ => 43
  }

  function MarkRow(c: char): RowNo {
    match c
    case '!' => 0 case '@' => 1 case '#' => 2 case '$' => 3 case '%' => 4 case '^' => 5 case '&' => 6
    case '*' => 7 case '(' => 8 case '0' => 9 case ')' => 9 case '-' => 10 case '_' => 10 case '=' => 11
    case '+' => 11 case '[' => 22 case '{' => 22 case ']' => 23 case '}' => 23 case ';' => 33
    case ':' => 33 case '\'' => 34 case '\"' => 34 case '`' => 35 case '~' => 35 case '\\' => 36
    case '|' => 36 case ',' => 44 case '<' => 44 case '.' => 45 case '>' => 45 case '/' => 46
    case '?' => 46 case _ => 47
  }

  lemma RowWithMarks(c: char)
    requires ' ' <= c <= '\''
    ensures InRow(RowWith(c), c)
  {
  }

  lemma RowWithSymbols(c: char)
    requires '(' <= c <= '/'
    ensures InRow(RowWith(c), c)
  {
  }

  lemma RowWithDigits(c: char)
    requires '0' <= c <= '@'
    ensures InRow(RowWith(c), c)
  {
  }

  lemma RowWithCapitalsToP(c: char)
    requires 'A' <= c <= 'P'
    ensures InRow(RowWith(c), c)
  {
  }

  lemma RowWithCapitals(c: char)
    requires 'Q' <= c <= '`'
    ensures InRow(RowWith(c), c)
  {
  }

  lemma RowWithLettersToP(c: char)
    requires 'a' <= c <= 'p'
    ensures InRow(RowWith(c), c)
  {
  }

  lemma RowWithLetters(c: char)
    requires 'q' <= c <= '~'
    ensures InRow(RowWith(c), c)
  {
  }

  /** Every printable ASCII character is on a key. */
  lemma RowWithHas(c: char)
    requires ' ' <= c <= '~'
    ensures InRow(RowWith(c), c)
  {
    if c <= '\'' {
      RowWithMarks(c);
    } else if c <= '/' {
      RowWithSymbols(c);
    } else if c <= '@' {
      RowWithDigits(c);
    } else if c <= 'P' {
      RowWithCapitalsToP(c);
    } else if c <= '`' {
      RowWithCapitals(c);
    } else if c <= 'p' {
      RowWithLettersToP(c);
    } else {
      RowWithLetters(c);
    }
  }

  /** The characters of the row are on no other. */
  predicate Alone(i: RowNo) {
    RowWith(UsRow(i).lo) == i && RowWith(UsRow(i).hi) == i
  }

  lemma NumberRowAlone(i: RowNo)
    requires i < 12
    ensures Alone(i)
  {
  }

  lemma UpperLeftAlone(i: RowNo)
    requires 12 <= i < 18
    ensures Alone(i)
  {
  }

  lemma UpperRightAlone(i: RowNo)
    requires 18 <= i < 24
    ensures Alone(i)
  {
  }

  lemma HomeLeftAlone(i: RowNo)
    requires 24 <= i < 30
    ensures Alone(i)
  {
  }

  lemma HomeRightAlone(i: RowNo)
    requires 30 <= i < 36
    ensures Alone(i)
  {
  }

  lemma LowerLeftAlone(i: RowNo)
    requires 36 <= i < 42
    ensures Alone(i)
  {
  }

  lemma LowerRightAlone(i: RowNo)
    requires 42 <= i < 45
    ensures Alone(i)
  {
  }

  lemma LastKeysAlone(i: RowNo)
    requires 45 <= i
    ensures Alone(i)
  {
  }

  /** No character is on two keys. */
  lemma RowUnique(i: RowNo, c: char)
    requires InRow(i, c)
    ensures ' ' <= c <= '~' && RowWith(c) == i
  {
    RowFacts(i);
    if i < 12 {
      NumberRowAlone(i);
    } else if i < 18 {
      UpperLeftAlone(i);
    } else if i < 24 {
      UpperRightAlone(i);
    } else if i < 30 {
      HomeLeftAlone(i);
    } else if i < 36 {
      HomeRightAlone(i);
    } else if i < 42 {
      LowerLeftAlone(i);
    } else if i < 45 {
      LowerRightAlone(i);
    } else {
      LastKeysAlone(i);
    }
  }

  datatype CharKey = CharKey(code: Byte, shift: bool)

  /** The key types this character: in its row, with Shift only where that makes a difference. */
  ghost predicate Types(k: CharKey, c: char) {
    exists i: RowNo :: TypesInRow(k, i, c)
  }

  predicate TypesInRow(k: CharKey, i: RowNo, c: char) {
    && k.code == UsRow(i).code && c == (if k.shift then UsRow(i).hi else UsRow(i).lo)
    && (k.shift ==> UsRow(i).hi != UsRow(i).lo)
  }

  predicate Printable(c: char) {
    ' ' <= c <= '~'
  }

  /** Exactly the printable characters are mapped, each to a key that types it. */
  ghost predicate IsKeymap(m: map<char, CharKey>) {
    && (forall c :: c in m <==> Printable(c))
    && (forall c | c in m :: Types(m[c], c))
  }

  method BuildKeymap() returns (m: map<char, CharKey>)
    ensures IsKeymap(m)
  {
    m := map[];
    for i := 0 to ROWS
      invariant forall c | c in m :: Printable(c) && Types(m[c], c)
      invariant forall j: RowNo | j < i :: UsRow(j).lo in m && UsRow(j).hi in m
    {
      var k := UsRow(i);
      RowFacts(i);
      assert TypesInRow(CharKey(k.code, false), i, k.lo);
      assert k.hi != k.lo ==> TypesInRow(CharKey(k.code, true), i, k.hi);
      m := m[k.lo := CharKey(k.code, false)];
      if k.hi != k.lo {
        m := m[k.hi := CharKey(k.code, true)];
      }
    }
    forall c | Printable(c) ensures c in m {
      RowWithHas(c);
    }
  }

  // ----- Codes of a key and of a text -----

  function One(b: bool, code: Byte): seq<Byte> {
    if b then [code] else []
  }

  /** Make and break of the key itself, each after the prefix if it is extended. */
  function Stroke(k: Key): seq<Byte> {
    One(k.extended, EXTENDED) + [k.code] + One(k.extended, EXTENDED) + [Break(k.code)]
  }

  /** Modifier makes, key make and break, modifier breaks in the opposite order. */
  function KeyCodes(k: Key, mods: Mods): seq<Byte> {
    One(mods.shift, SHIFT_MAKE) + One(mods.ctrl, CTRL_MAKE) + One(mods.alt, ALT_MAKE) +
    Stroke(k) +
    One(mods.alt, ALT_BREAK) + One(mods.ctrl, CTRL_BREAK) + One(mods.shift, SHIFT_BREAK)
  }

  /** The bytes of a key: Shift is 0x2A, Ctrl 0x1D, Alt 0x38, the prefix 0xE0, and a break is the make plus 0x80. */
  lemma KeyBytes(k: Key, mods: Mods)
    requires IsKey(k)
    ensures KeyCodes(k, mods) ==
            (if mods.shift then [0x2A] else []) + (if mods.ctrl then [0x1D] else [])
            + (if mods.alt then [0x38] else [])
            + (if k.extended then [0xE0, k.code, 0xE0, k.code + 0x80] else [k.code, k.code + 0x80])
            + (if mods.alt then [0xB8] else []) + (if mods.ctrl then [0x9D] else [])
            + (if mods.shift then [0xAA] else [])
  {
    StrokeBytes(k);
  }

  lemma StrokeBytes(k: Key)
    requires IsKey(k)
    ensures Stroke(k) == if k.extended then [0xE0, k.code, 0xE0, k.code + 0x80] else [k.code, k.code + 0x80]
  {
  }

  /** `c` is one of Ctrl-A .. Ctrl-Z. */
  predicate IsControl(c: char) {
    0x01 <= c as int <= 0x1A
  }

  function Letter(c: char): char
    requires IsControl(c)
  {
    ('a' as int + c as int - 1) as char
  }

  lemma MappedIsKey(m: map<char, CharKey>, c: char)
    requires IsKeymap(m) && c in m
    ensures IsKey(Key(m[c].code, false))
    ensures Symbol(m[c].code, m[c].shift) == Some(c) && ('a' <= c <= 'z' ==> !m[c].shift)
    ensures m[c].code != 0
  {
    var i: RowNo :| TypesInRow(m[c], i, c);
    RowFacts(i);
    RowsShown(i);
  }

  /**
   The key map is the inverse of the keyboard: every character shown on a key is mapped to
   that key's code and the Shift state that shows it.
   */
  lemma KeymapIsLayout(m: map<char, CharKey>, code: Byte, shift: bool)
    requires IsKeymap(m) && Symbol(code, shift).Some? && (code == 0x39 ==> !shift)
    ensures Symbol(code, shift).value in m && m[Symbol(code, shift).value] == CharKey(code, shift)
  {
    SymbolRow(code, shift);
    var i, c := RowOf(code).value, Symbol(code, shift).value;
    ShownAs(i, code, shift);
    RowUnique(i, c);
    var j: RowNo :| TypesInRow(m[c], j, c);
    RowUnique(j, c);
  }

  lemma SymbolRow(code: Byte, shift: bool)
    requires Symbol(code, shift).Some?
    ensures RowOf(code).Some?
  {
  }

  lemma RowOfInjective(a: Byte, b: Byte)
    requires RowOf(a).Some? && RowOf(a) == RowOf(b)
    ensures a == b
  {
  }

  /** A code of row `i` shows the characters of that row, which differ on all keys but the space bar. */
  lemma ShownAs(i: RowNo, code: Byte, shift: bool)
    requires RowOf(code) == Some(i)
    ensures UsRow(i).code == code && Symbol(code, shift) == Some(if shift then UsRow(i).hi else UsRow(i).lo)
    ensures code == 0x39 || UsRow(i).lo != UsRow(i).hi
  {
    RowFacts(i);
    RowsShown(i);
    RowOfInjective(code, UsRow(i).code);
    ShiftMatters(i);
  }

  lemma ShiftMatters(i: RowNo)
    ensures UsRow(i).code == 0x39 || UsRow(i).lo != UsRow(i).hi
  {
  }

  /** So digits and letters lie as on a US keyboard, and a capital is Shift with its small letter. */
  lemma LayoutOf(m: map<char, CharKey>)
    requires IsKeymap(m)
    ensures forall c | '1' <= c <= '9' :: c in m && m[c] == CharKey(c as int - '1' as int + 2, false)
    ensures m['0'] == CharKey(0x0B, false) && m[' '] == CharKey(0x39, false)
    ensures forall i | 0 <= i < 12 :: "qwertyuiop[]"[i] in m && m["qwertyuiop[]"[i]] == CharKey(0x10 + i, false)
    ensures forall i | 0 <= i < 12 :: "asdfghjkl;'`"[i] in m && m["asdfghjkl;'`"[i]] == CharKey(0x1E + i, false)
    ensures forall i | 0 <= i < 11 :: "\\zxcvbnm,./"[i] in m && m["\\zxcvbnm,./"[i]] == CharKey(0x2B + i, false)
  {
    forall c | '1' <= c <= '9' ensures c in m && m[c] == CharKey(c as int - '1' as int + 2, false) {
      assert "1234567890-="[c as int - '1' as int] == c;
      KeymapIsLayout(m, c as int - '1' as int + 2, false);
    }
    KeymapIsLayout(m, 0x0B, false);
    KeymapIsLayout(m, 0x39, false);
    forall i | 0 <= i < 12 ensures "qwertyuiop[]"[i] in m && m["qwertyuiop[]"[i]] == CharKey(0x10 + i, false) {
      KeymapIsLayout(m, 0x10 + i, false);
    }
    forall i | 0 <= i < 12 ensures "asdfghjkl;'`"[i] in m && m["asdfghjkl;'`"[i]] == CharKey(0x1E + i, false) {
      KeymapIsLayout(m, 0x1E + i, false);
    }
    forall i | 0 <= i < 11 ensures "\\zxcvbnm,./"[i] in m && m["\\zxcvbnm,./"[i]] == CharKey(0x2B + i, false) {
      KeymapIsLayout(m, 0x2B + i, false);
    }
  }

  /** The codes typed for one character; unmapped characters send nothing. */
  function CharCodes(m: map<char, CharKey>, c: char): seq<Byte>
    requires IsKeymap(m)
  {
    if c == '\n' || c == '\r' then KeyCodes(KEY_ENTER, NO_MODS)
    else if c == '\U{08}' then KeyCodes(KEY_BACKSPACE, NO_MODS)
    else if c == '\t' then KeyCodes(KEY_TAB, NO_MODS)
    else if c == '\U{1B}' then KeyCodes(KEY_ESC, NO_MODS)
    else if IsControl(c) then
      if Letter(c) in m then
        MappedIsKey(m, Letter(c));
        KeyCodes(Key(m[Letter(c)].code, false), Mods(false, true, false))
      else []
    else if c in m then
      MappedIsKey(m, c);
      KeyCodes(Key(m[c].code, false), Mods(m[c].shift, false, false))
    else []
  }

  function TextCodes(m: map<char, CharKey>, s: string): seq<Byte>
    requires IsKeymap(m)
  {
    if s == [] then [] else TextCodes(m, s[..|s| - 1]) + CharCodes(m, s[|s| - 1])
  }

  // ----- Every make is closed by its break -----

  /** Keys held down, newest last; an extended key counts as its code plus 0x100. */
  function Hold(held: seq<int>, ext: bool, codes: seq<Byte>): Option<seq<int>>
    decreases |codes|
  {
    if codes == [] then if ext then None else Some(held)
    else
      var code, rest := codes[0], codes[1..];
      var prefix: int := if ext then 0x100 else 0;
      if code == EXTENDED then if ext then None else Hold(held, true, rest)
      else if code < 0x80 then Hold(held + [prefix + code], false, rest)
      else if held != [] && held[|held| - 1] == prefix + code - 0x80 then Hold(held[..|held| - 1], false, rest)
      else None
  }

  lemma HoldMake(held: seq<int>, ext: bool, code: Byte, rest: seq<Byte>)
    requires code < 0x80
    ensures Hold(held, ext, [code] + rest) == Hold(held + [code + if ext then 0x100 else 0], false, rest)
  {
    assert ([code] + rest)[1..] == rest;
  }

  lemma HoldPrefix(held: seq<int>, rest: seq<Byte>)
    ensures Hold(held, false, [EXTENDED] + rest) == Hold(held, true, rest)
  {
    assert ([EXTENDED] + rest)[1..] == rest;
  }

  lemma HoldBreak(held: seq<int>, ext: bool, code: Byte, rest: seq<Byte>)
    requires code < 0x80 && code != 0x60
    ensures Hold(held + [code + if ext then 0x100 else 0], ext, [code + 0x80] + rest) == Hold(held, false, rest)
  {
    assert ([code + 0x80] + rest)[1..] == rest;
    var key := code + if ext then 0x100 else 0;
    assert (held + [key])[..|held|] == held;
  }

  lemma HoldOne(held: seq<int>, b: bool, code: Byte, rest: seq<Byte>)
    requires code < 0x80
    ensures Hold(held, false, One(b, code) + rest) ==
            Hold(held + if b then [code as int] else [], false, rest)
  {
    if b {
      HoldMake(held, false, code, rest);
    } else {
      assert [] + rest == rest && held + [] == held;
    }
  }

  lemma ReleaseOne(held: seq<int>, b: bool, code: Byte, rest: seq<Byte>)
    requires code < 0x80 && code != 0x60
    ensures Hold(held + if b then [code as int] else [], false, One(b, code + 0x80) + rest)
            == Hold(held, false, rest)
  {
    if b {
      HoldBreak(held, false, code, rest);
    } else {
      assert [] + rest == rest && held + [] == held;
    }
  }

  /** Whatever keys are held, these codes leave exactly those held. */
  ghost predicate Closed(codes: seq<Byte>) {
    forall held: seq<int>, rest: seq<Byte> :: ClosedUnder(codes, held, rest)
  }

  ghost predicate ClosedUnder(codes: seq<Byte>, held: seq<int>, rest: seq<Byte>) {
    Hold(held, false, codes + rest) == Hold(held, false, rest)
  }

  lemma StrokeHolds(held: seq<int>, k: Key, rest: seq<Byte>)
    requires IsKey(k)
    ensures Hold(held, false, Stroke(k) + rest) == Hold(held, false, rest)
  {
    var up := [k.code + 0x80] + rest;
    if k.extended {
      assert Stroke(k) + rest == [EXTENDED] + ([k.code] + ([EXTENDED] + up));
      HoldPrefix(held, [k.code] + ([EXTENDED] + up));
      HoldMake(held, true, k.code, [EXTENDED] + up);
      HoldPrefix(held + [k.code + 0x100], up);
    } else {
      assert Stroke(k) + rest == [k.code] + up;
      HoldMake(held, false, k.code, up);
    }
    HoldBreak(held, k.extended, k.code, rest);
  }

  /** A modifier around codes: its make first, its break last. */
  function Around(b: bool, code: Byte, inner: seq<Byte>): seq<Byte>
    requires code < 0x80
  {
    One(b, code) + inner + One(b, code + 0x80)
  }

  lemma AroundHolds(held: seq<int>, b: bool, code: Byte, inner: seq<Byte>, rest: seq<Byte>)
    requires code < 0x80 && code != 0x60 && Closed(inner)
    ensures ClosedUnder(Around(b, code, inner), held, rest)
  {
    var up := One(b, code + 0x80) + rest;
    assert Around(b, code, inner) + rest == One(b, code) + (inner + up);
    HoldOne(held, b, code, inner + up);
    assert ClosedUnder(inner, held + if b then [code as int] else [], up);
    ReleaseOne(held, b, code, rest);
  }

  lemma AroundCloses(b: bool, code: Byte, inner: seq<Byte>)
    requires code < 0x80 && code != 0x60 && Closed(inner)
    ensures Closed(Around(b, code, inner))
  {
    forall held: seq<int>, rest: seq<Byte> {
      AroundHolds(held, b, code, inner, rest);
    }
  }

  lemma StrokeCloses(k: Key)
    requires IsKey(k)
    ensures Closed(Stroke(k))
  {
    forall held: seq<int>, rest: seq<Byte> ensures ClosedUnder(Stroke(k), held, rest) {
      StrokeHolds(held, k, rest);
    }
  }

  lemma Regroup(a: seq<Byte>, b: seq<Byte>, c: seq<Byte>, s: seq<Byte>, x: seq<Byte>, y: seq<Byte>, z: seq<Byte>)
    ensures a + b + c + s + x + y + z == a + (b + (c + s + x) + y) + z
  {
  }

  /** The modifiers of a key nest around its stroke. */
  lemma KeyCodesNest(k: Key, mods: Mods)
    ensures KeyCodes(k, mods) ==
            Around(mods.shift, SHIFT_MAKE, Around(mods.ctrl, CTRL_MAKE, Around(mods.alt, ALT_MAKE, Stroke(k))))
  {
    Regroup(One(mods.shift, SHIFT_MAKE), One(mods.ctrl, CTRL_MAKE), One(mods.alt, ALT_MAKE), Stroke(k),
            One(mods.alt, ALT_BREAK), One(mods.ctrl, CTRL_BREAK), One(mods.shift, SHIFT_BREAK));
  }

  /**
   After a key, whatever its modifiers, every make has been closed by its break in nested
   order on top of whatever keys were held before, exactly when the key's code is one.
   */
  lemma KeyCloses(k: Key, mods: Mods)
    ensures Closed(KeyCodes(k, mods)) <==> IsKey(k)
  {
    if IsKey(k) {
      RealKeyCloses(k, mods);
    } else {
      OtherKeyJams(k, mods);
    }
  }

  /** Two equal breaks, or a break behind the wrong prefix, end no key that was pressed. */
  lemma StrokeJams(held: seq<int>, k: Key, rest: seq<Byte>)
    requires !IsKey(k)
    requires forall i | 0 <= i < |held| :: held[i] < 0x100
    requires forall i, j | 0 <= i < j < |held| :: held[i] != held[j]
    requires rest == [] || 0x80 <= rest[0]
    ensures Hold(held, false, Stroke(k) + rest) == None
  {
    if k.extended {
      ExtendedJams(held, k, rest);
    } else {
      PlainJams(held, k, rest);
    }
  }

  lemma PlainJams(held: seq<int>, k: Key, rest: seq<Byte>)
    requires !IsKey(k) && !k.extended
    requires forall i, j | 0 <= i < j < |held| :: held[i] != held[j]
    requires rest == [] || 0x80 <= rest[0]
    ensures Hold(held, false, Stroke(k) + rest) == None
  {
    var up := [Break(k.code)] + rest;
    assert Stroke(k) + rest == [k.code] + up;
    assert ([k.code] + up)[1..] == up && up[1..] == rest;
    if k.code == 0x60 {
      HoldMake(held, false, k.code, up);
      HoldPrefix(held + [k.code as int], rest);
    }
  }

  lemma ExtendedJams(held: seq<int>, k: Key, rest: seq<Byte>)
    requires !IsKey(k) && k.extended
    requires forall i | 0 <= i < |held| :: held[i] < 0x100
    ensures Hold(held, false, Stroke(k) + rest) == None
  {
    var last := [Break(k.code)] + rest;
    var up := [EXTENDED] + last;
    assert Stroke(k) + rest == [EXTENDED] + ([k.code] + up);
    HoldPrefix(held, [k.code] + up);
    assert ([k.code] + up)[1..] == up && up[1..] == last;
    if k.code == 0x60 {
      HoldMake(held, true, k.code, up);
      HoldPrefix(held + [k.code + 0x100], last);
    }
  }

  /** The modifiers held when the key itself goes down. */
  function Modifiers(mods: Mods): seq<int> {
    (if mods.shift then [SHIFT_MAKE as int] else []) + (if mods.ctrl then [CTRL_MAKE as int] else [])
    + (if mods.alt then [ALT_MAKE as int] else [])
  }

  /** The breaks of the modifiers, in reverse order. */
  function Releases(mods: Mods): seq<Byte> {
    One(mods.alt, ALT_BREAK) + One(mods.ctrl, CTRL_BREAK) + One(mods.shift, SHIFT_BREAK)
  }

  lemma ModifiersHeld(k: Key, mods: Mods)
    ensures Hold([], false, KeyCodes(k, mods)) == Hold(Modifiers(mods), false, Stroke(k) + Releases(mods))
  {
    var h1: seq<int> := if mods.shift then [SHIFT_MAKE as int] else [];
    var h2 := h1 + if mods.ctrl then [CTRL_MAKE as int] else [];
    var keyUp := Stroke(k) + Releases(mods);
    var altDown := One(mods.alt, ALT_MAKE) + keyUp;
    var ctrlDown := One(mods.ctrl, CTRL_MAKE) + altDown;
    GroupKey(k, mods);
    HoldOne([], mods.shift, SHIFT_MAKE, ctrlDown);
    HoldOne(h1, mods.ctrl, CTRL_MAKE, altDown);
    HoldOne(h2, mods.alt, ALT_MAKE, keyUp);
    assert [] + h1 == h1;
  }

  lemma GroupKey(k: Key, mods: Mods)
    ensures KeyCodes(k, mods) ==
            One(mods.shift, SHIFT_MAKE) + (One(mods.ctrl, CTRL_MAKE) + (One(mods.alt, ALT_MAKE)
              + (Stroke(k) + Releases(mods))))
  {
  }

  lemma OtherKeyJams(k: Key, mods: Mods)
    requires !IsKey(k)
    ensures !ClosedUnder(KeyCodes(k, mods), [], [])
  {
    ModifiersHeld(k, mods);
    StrokeJams(Modifiers(mods), k, Releases(mods));
    assert KeyCodes(k, mods) + [] == KeyCodes(k, mods);
  }

  lemma RealKeyCloses(k: Key, mods: Mods)
    requires IsKey(k)
    ensures Closed(KeyCodes(k, mods))
  {
    var alt := Around(mods.alt, ALT_MAKE, Stroke(k));
    StrokeCloses(k);
    AroundCloses(mods.alt, ALT_MAKE, Stroke(k));
    AroundCloses(mods.ctrl, CTRL_MAKE, alt);
    AroundCloses(mods.shift, SHIFT_MAKE, Around(mods.ctrl, CTRL_MAKE, alt));
    KeyCodesNest(k, mods);
  }

  lemma ClosedAppend(x: seq<Byte>, y: seq<Byte>)
    requires Closed(x) && Closed(y)
    ensures Closed(x + y)
  {
    forall held: seq<int>, rest: seq<Byte> ensures ClosedUnder(x + y, held, rest) {
      assert (x + y) + rest == x + (y + rest);
      assert ClosedUnder(x, held, y + rest) && ClosedUnder(y, held, rest);
    }
  }

  /** A typed text leaves no key held down. */
  lemma {:induction false} TextCloses(m: map<char, CharKey>, s: string)
    requires IsKeymap(m)
    ensures Closed(TextCodes(m, s))
  {
    if s == [] {
      forall held: seq<int>, rest: seq<Byte> ensures ClosedUnder([], held, rest) {
        assert [] + rest == rest;
      }
    } else {
      var c := s[|s| - 1];
      TextCloses(m, s[..|s| - 1]);
      CharCloses(m, c);
      ClosedAppend(TextCodes(m, s[..|s| - 1]), CharCodes(m, c));
    }
  }

  lemma CharCloses(m: map<char, CharKey>, c: char)
    requires IsKeymap(m)
    ensures Closed(CharCodes(m, c))
  {
    var codes := CharCodes(m, c);
    if codes == [] {
      forall held: seq<int>, rest: seq<Byte> ensures ClosedUnder([], held, rest) {
        assert [] + rest == rest;
      }
    } else {
      var k, mods := CharStroke(m, c);
      KeyCloses(k, mods);
    }
  }

  /** Whatever is typed for a character is one key stroke with modifiers. */
  lemma CharStroke(m: map<char, CharKey>, c: char) returns (k: Key, mods: Mods)
    requires IsKeymap(m) && CharCodes(m, c) != []
    ensures IsKey(k) && k.code != 0 && CharCodes(m, c) == KeyCodes(k, mods)
  {
    mods := NO_MODS;
    if c == '\n' || c == '\r' {
      k := KEY_ENTER;
    } else if c == '\U{08}' {
      k := KEY_BACKSPACE;
    } else if c == '\t' {
      k := KEY_TAB;
    } else if c == '\U{1B}' {
      k := KEY_ESC;
    } else if IsControl(c) {
      MappedIsKey(m, Letter(c));
      k, mods := Key(m[Letter(c)].code, false), Mods(false, true, false);
    } else {
      MappedIsKey(m, c);
      k, mods := Key(m[c].code, false), Mods(m[c].shift, false, false);
    }
  }

  /** Typing never sends the code 0, which marks an idle keyboard. */
  lemma {:induction false} TextHasNoBlank(m: map<char, CharKey>, s: string)
    requires IsKeymap(m)
    ensures 0 !in TextCodes(m, s)
  {
    if s != [] {
      TextHasNoBlank(m, s[..|s| - 1]);
      if CharCodes(m, s[|s| - 1]) != [] {
        var k, mods := CharStroke(m, s[|s| - 1]);
        KeyBytes(k, mods);
      }
    }
  }

  // ----- Decoding -----

  /** A keyboard handler for set 1: Shift and Ctrl held, and the text so far. */
  datatype Decoder = Decoder(shift: bool, ctrl: bool, text: string)

  const LISTENING := Decoder(false, false, "")

  function Hear(d: Decoder, code: Byte): Decoder {
    if code == 0x2A then d.(shift := true)
    else if code == 0xAA then d.(shift := false)
    else if code == 0x1D then d.(ctrl := true)
    else if code == 0x9D then d.(ctrl := false)
    else if code == 0x1C then d.(text := d.text + ['\r'])
    else if code == 0x0E then d.(text := d.text + ['\U{08}'])
    else if code == 0x0F then d.(text := d.text + ['\t'])
    else if code == 0x01 then d.(text := d.text + ['\U{1B}'])
    else
      match Symbol(code, d.shift && !d.ctrl)
      case None => d
      case Some(c) =>
        if !d.ctrl then d.(text := d.text + [c])
        else if 'a' <= c <= 'z' then d.(text := d.text + [(c as int - 'a' as int + 1) as char])
        else d
  }

  function HearAll(d: Decoder, codes: seq<Byte>): Decoder {
    if codes == [] then d else Hear(HearAll(d, codes[..|codes| - 1]), codes[|codes| - 1])
  }

  lemma {:induction false} HearAppend(d: Decoder, x: seq<Byte>, y: seq<Byte>)
    ensures HearAll(d, x + y) == HearAll(HearAll(d, x), y)
    decreases |y|
  {
    if y == [] {
      assert x + y == x;
    } else {
      HearAppend(d, x, y[..|y| - 1]);
      assert (x + y)[..|x + y| - 1] == x + y[..|y| - 1];
    }
  }

  /** What a character becomes: line feeds are carriage returns, unmapped ones vanish. */
  function Kept(c: char): string {
    if c == '\n' then "\r"
    else if 0x01 <= c as int <= 0x1B || 0x20 <= c as int <= 0x7E then [c]
    else ""
  }

  function Normalised(s: string): string {
    if s == [] then "" else Normalised(s[..|s| - 1]) + Kept(s[|s| - 1])
  }

  lemma PlainCodes(k: Key, mods: Mods)
    requires IsKey(k) && !k.extended && !mods.alt
    ensures KeyCodes(k, mods) ==
            One(mods.shift, SHIFT_MAKE) + One(mods.ctrl, CTRL_MAKE) + ([k.code] + ([k.code + 0x80]
              + (One(mods.ctrl, CTRL_BREAK) + One(mods.shift, SHIFT_BREAK))))
  {
  }

  /** Hearing a plain key, alone, with Shift or with Ctrl. */
  lemma HearKey(d: Decoder, k: Key, mods: Mods)
    requires IsKey(k) && !k.extended && !mods.alt && !d.shift && !d.ctrl
    requires k.code != SHIFT_MAKE && k.code != CTRL_MAKE
    ensures HearAll(d, KeyCodes(k, mods)) ==
            Hear(d.(shift := mods.shift, ctrl := mods.ctrl), k.code).(shift := false, ctrl := false)
  {
    var d1 := d.(shift := mods.shift, ctrl := mods.ctrl);
    var makes := One(mods.shift, SHIFT_MAKE) + One(mods.ctrl, CTRL_MAKE);
    var breaks := One(mods.ctrl, CTRL_BREAK) + One(mods.shift, SHIFT_BREAK);
    PlainCodes(k, mods);
    HearOne(d, mods.shift, SHIFT_MAKE);
    HearOne(d.(shift := mods.shift), mods.ctrl, CTRL_MAKE);
    HearAppend(d, One(mods.shift, SHIFT_MAKE), One(mods.ctrl, CTRL_MAKE));
    HearAppend(d, makes, [k.code] + ([k.code + 0x80] + breaks));
    HearOne(d1, true, k.code);
    HearAppend(d1, [k.code], [k.code + 0x80] + breaks);
    var d2 := Hear(d1, k.code);
    HearOne(d2, true, k.code + 0x80);
    assert Hear(d2, k.code + 0x80) == d2;
    HearAppend(d2, [k.code + 0x80], breaks);
    HearOne(d2, mods.ctrl, CTRL_BREAK);
    HearOne(if mods.ctrl then Hear(d2, CTRL_BREAK) else d2, mods.shift, SHIFT_BREAK);
    HearAppend(d2, One(mods.ctrl, CTRL_BREAK), One(mods.shift, SHIFT_BREAK));
  }

  lemma HearOne(d: Decoder, b: bool, code: Byte)
    ensures HearAll(d, One(b, code)) == if b then Hear(d, code) else d
  {
    if b {
      assert [code][..0] == [];
    }
  }

  /** Hearing the make code of a mapped key with its Shift state. */
  lemma HearMapped(m: map<char, CharKey>, d: Decoder, c: char)
    requires IsKeymap(m) && Printable(c) && !d.ctrl && d.shift == m[c].shift
    ensures Hear(d, m[c].code) == d.(text := d.text + [c])
    ensures m[c].code != SHIFT_MAKE && m[c].code != CTRL_MAKE
  {
    MappedIsKey(m, c);
  }

  /** Hearing a letter's make code with Ctrl held. */
  lemma HearControl(m: map<char, CharKey>, d: Decoder, c: char)
    requires IsKeymap(m) && IsControl(c) && d.ctrl
    ensures Letter(c) in m && Hear(d, m[Letter(c)].code) == d.(text := d.text + [c])
    ensures m[Letter(c)].code != SHIFT_MAKE && m[Letter(c)].code != CTRL_MAKE
  {
    MappedIsKey(m, Letter(c));
  }

  lemma HearChar(m: map<char, CharKey>, d: Decoder, c: char)
    requires IsKeymap(m) && !d.shift && !d.ctrl
    ensures HearAll(d, CharCodes(m, c)) == d.(text := d.text + Kept(c))
  {
    if c == '\n' || c == '\r' {
      HearKey(d, KEY_ENTER, NO_MODS);
    } else if c == '\U{08}' {
      HearKey(d, KEY_BACKSPACE, NO_MODS);
    } else if c == '\t' {
      HearKey(d, KEY_TAB, NO_MODS);
    } else if c == '\U{1B}' {
      HearKey(d, KEY_ESC, NO_MODS);
    } else if IsControl(c) {
      HearControl(m, d.(ctrl := true), c);
      MappedIsKey(m, Letter(c));
      HearKey(d, Key(m[Letter(c)].code, false), Mods(false, true, false));
    } else if Printable(c) {
      HearMapped(m, d.(shift := m[c].shift), c);
      MappedIsKey(m, c);
      HearKey(d, Key(m[c].code, false), Mods(m[c].shift, false, false));
    }
  }

  /** Typing can be undone: a set-1 keyboard handler recovers the normalised text. */
  lemma {:induction false} TextIsRecovered(m: map<char, CharKey>, s: string)
    requires IsKeymap(m)
    ensures HearAll(LISTENING, TextCodes(m, s)) == LISTENING.(text := Normalised(s))
  {
    if s != [] {
      var before := s[..|s| - 1];
      TextIsRecovered(m, before);
      HearAppend(LISTENING, TextCodes(m, before), CharCodes(m, s[|s| - 1]));
      HearChar(m, LISTENING.(text := Normalised(before)), s[|s| - 1]);
    }
  }

  // ----- Pushing codes into the keyboard -----

  /** The keyboard after a burst of codes. */
  function PressAll(k: Ppi.State, codes: seq<Byte>): Ppi.State {
    if codes == [] then k else Ppi.Press(PressAll(k, codes[..|codes| - 1]), codes[|codes| - 1])
  }

  lemma {:induction false} PressAppend(k: Ppi.State, x: seq<Byte>, y: seq<Byte>)
    ensures PressAll(k, x + y) == PressAll(PressAll(k, x), y)
    decreases |y|
  {
    if y == [] {
      assert x + y == x;
    } else {
      PressAppend(k, x, y[..|y| - 1]);
      assert (x + y)[..|x + y| - 1] == x + y[..|y| - 1];
    }
  }

  method PressIf(p: Ppi.PPI, b: bool, code: Byte)
    requires p.Valid()
    modifies p, p.irq1
    ensures p.Valid() && p.View() == PressAll(old(p.View()), One(b, code))
  {
    if b {
      p.PressScancode(code);
      assert [code][..0] == [];
    }
  }

  method PressKey(p: Ppi.PPI, k: Key, mods: Mods)
    requires p.Valid()
    modifies p, p.irq1
    ensures p.Valid() && p.View() == PressAll(old(p.View()), KeyCodes(k, mods))
  {
    ghost var start := p.View();
    PressIf(p, mods.shift, SHIFT_MAKE);
    PressIf(p, mods.ctrl, CTRL_MAKE);
    PressIf(p, mods.alt, ALT_MAKE);
    PressAppend(start, One(mods.shift, SHIFT_MAKE), One(mods.ctrl, CTRL_MAKE));
    PressAppend(start, One(mods.shift, SHIFT_MAKE) + One(mods.ctrl, CTRL_MAKE), One(mods.alt, ALT_MAKE));
    ghost var makes := One(mods.shift, SHIFT_MAKE) + One(mods.ctrl, CTRL_MAKE) + One(mods.alt, ALT_MAKE);
    PressStroke(p, k);
    PressAppend(start, makes, Stroke(k));
    PressIf(p, mods.alt, ALT_BREAK);
    PressAppend(start, makes + Stroke(k), One(mods.alt, ALT_BREAK));
    PressIf(p, mods.ctrl, CTRL_BREAK);
    PressAppend(start, makes + Stroke(k) + One(mods.alt, ALT_BREAK), One(mods.ctrl, CTRL_BREAK));
    PressIf(p, mods.shift, SHIFT_BREAK);
    PressAppend(start, makes + Stroke(k) + One(mods.alt, ALT_BREAK) + One(mods.ctrl, CTRL_BREAK),
                One(mods.shift, SHIFT_BREAK));
  }

  method PressStroke(p: Ppi.PPI, k: Key)
    requires p.Valid()
    modifies p, p.irq1
    ensures p.Valid() && p.View() == PressAll(old(p.View()), Stroke(k))
  {
    ghost var start := p.View();
    PressIf(p, k.extended, EXTENDED);
    PressIf(p, true, k.code);
    PressAppend(start, One(k.extended, EXTENDED), [k.code]);
    PressIf(p, k.extended, EXTENDED);
    PressAppend(start, One(k.extended, EXTENDED) + [k.code], One(k.extended, EXTENDED));
    PressIf(p, true, Break(k.code));
    PressAppend(start, One(k.extended, EXTENDED) + [k.code] + One(k.extended, EXTENDED), [Break(k.code)]);
  }

  method Type(p: Ppi.PPI, m: map<char, CharKey>, s: string)
    requires p.Valid() && IsKeymap(m)
    modifies p, p.irq1
    ensures p.Valid() && p.View() == PressAll(old(p.View()), TextCodes(m, s))
  {
    for i := 0 to |s|
      invariant p.Valid() && p.View() == PressAll(old(p.View()), TextCodes(m, s[..i]))
    {
      TypeChar(p, m, s[i]);
      PressAppend(old(p.View()), TextCodes(m, s[..i]), CharCodes(m, s[i]));
      assert s[..i + 1][..i] == s[..i];
    }
    assert s[..|s|] == s;
  }

  method TypeChar(p: Ppi.PPI, m: map<char, CharKey>, c: char)
    requires p.Valid() && IsKeymap(m)
    modifies p, p.irq1
    ensures p.Valid() && p.View() == PressAll(old(p.View()), CharCodes(m, c))
  {
    if c == '\n' || c == '\r' {
      PressKey(p, KEY_ENTER, NO_MODS);
    } else if c == '\U{08}' {
      PressKey(p, KEY_BACKSPACE, NO_MODS);
    } else if c == '\t' {
      PressKey(p, KEY_TAB, NO_MODS);
    } else if c == '\U{1B}' {
      PressKey(p, KEY_ESC, NO_MODS);
    } else if IsControl(c) {
      if Letter(c) in m {
        MappedIsKey(m, Letter(c));
        PressKey(p, Key(m[Letter(c)].code, false), Mods(false, true, false));
      }
    } else if c in m {
      MappedIsKey(m, c);
      PressKey(p, Key(m[c].code, false), Mods(m[c].shift, false, false));
    }
  }
}
