/** Bounded machine words and the few byte operations shared by the devices. */
module Bytes {

  type Byte = n: int | 0 <= n < 0x100
  type Word = n: int | 0 <= n < 0x1_0000
  type DWord = n: int | 0 <= n < 0x1_0000_0000

  datatype Option<+T> = None | Some(value: T)

  /** `v & mask != 0` for a mask with a single bit set. */
  predicate Bit(v: int, mask: int)
    requires 0 < mask
  {
    (v / mask) % 2 == 1
  }

  /** `byte(v)`: the low eight bits. */
  function Low(v: int): Byte {
    v % 0x100
  }

  /** `byte(w >> 8)`. */
  function High(w: Word): Byte {
    w / 0x100
  }

  /** `uint16(lo) | uint16(hi) << 8`. */
  function Join(lo: Byte, hi: Byte): Word {
    lo + 0x100 * hi
  }

  lemma JoinParts(lo: Byte, hi: Byte)
    ensures Low(Join(lo, hi)) == lo && High(Join(lo, hi)) == hi
  {
  }

  lemma JoinHalves(w: Word)
    ensures Join(Low(w), High(w)) == w
  {
  }

  /** `uint16(v)`. */
  function ToWord(v: int): Word {
    v % 0x1_0000
  }

  lemma WordResidue(v: int, q: int, r: int)
    requires v == 0x1_0000 * q + r && 0 <= r < 0x1_0000
    ensures ToWord(v) == r && v / 0x1_0000 == q
  {
  }

  /** Truncating early does not change a sum modulo 2^16. */
  lemma WordSum(v: int, d: int)
    ensures ToWord(ToWord(v) + d) == ToWord(v + d)
  {
    WordResidue(ToWord(v) + d, (v + d) / 0x1_0000 - v / 0x1_0000, ToWord(v + d));
  }

  /** `uint32(v)`. */
  function ToDWord(v: int): DWord {
    v % 0x1_0000_0000
  }

  function Min(a: int, b: int): int {
    if a < b then a else b
  }

  function Max(a: int, b: int): int {
    if a < b then b else a
  }

  lemma Multiple(q: int, p: int)
    ensures (q + 1) * p == q * p + p
  {
  }

  /** The quotient and the rest are determined by their range. */
  lemma QuotientIs(d: int, p: int, q: int, r: int)
    requires 0 < p && d == q * p + r && 0 <= r < p
    ensures d / p == q && d % p == r
  {
    var q', r' := d / p, d % p;
    assert d == q' * p + r';
    if q < q' {
      assert (q + 1) * p <= q' * p by { MultiplyLess(q + 1, q', p); }
      Multiple(q, p);
      assert false;
    } else if q' < q {
      assert (q' + 1) * p <= q * p by { MultiplyLess(q' + 1, q, p); }
      Multiple(q', p);
      assert false;
    }
  }

  lemma MultiplyLess(a: int, b: int, p: int)
    requires a <= b && 0 < p
    ensures a * p <= b * p
  {
  }
}
