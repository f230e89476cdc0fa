/** IDENTIFY DEVICE as a driver sees it: 256 words through the 8-bit ports, and what they mean. */
module Identification {
  import opened Bytes
  import opened HardDisk
  import opened Ata
  import opened XtIde

  /** Word `i` of a block as a driver puts it together. */
  function DriverWord(b: seq<Byte>, i: int): int
    requires 0 <= i && 2 * i + 1 < |b|
  {
    b[2 * i] as int + 0x100 * b[2 * i + 1] as int
  }

  /** Character `k` of a text field, blank past the end of the text. */
  function FieldChar(s: string, k: int): int
    requires 0 <= k
  {
    if k < |s| then s[k] as int % 0x100 else 0x20
  }

  /** A text field from word `first`: two characters to a word, the first one in the high byte. */
  ghost predicate TextField(b: seq<Byte>, first: int, words: int, s: string)
    requires 0 <= first && 0 <= words && 2 * (first + words) <= |b|
  {
    forall i | 0 <= i < words ::
      b[2 * (first + i) + 1] == FieldChar(s, 2 * i) && b[2 * (first + i)] == FieldChar(s, 2 * i + 1)
  }

  /** Disk type, LBA, validity of words 54-58, and no multiple-sector commands. */
  ghost predicate Capabilities(b: seq<Byte>)
    requires |b| == 512
  {
    DriverWord(b, 0) == 0x0040 && DriverWord(b, 47) == 0x8000 && DriverWord(b, 49) == 0x0200 && DriverWord(b, 53) == 1
  }

  /** Default and current geometry, and both capacities. */
  ghost predicate Sizes(b: seq<Byte>, total: DWord)
    requires |b| == 512
  {
    && DriverWord(b, 1) == DriverWord(b, 54) == Cylinders(total)
    && DriverWord(b, 3) == DriverWord(b, 55) == 16 && DriverWord(b, 6) == DriverWord(b, 56) == 63
    && DriverWord(b, 57) + 0x1_0000 * DriverWord(b, 58) == Cylinders(total) * 1008
    && DriverWord(b, 60) + 0x1_0000 * DriverWord(b, 61) == total
  }

  ghost predicate Names(b: seq<Byte>)
    requires |b| == 512
  {
    && TextField(b, 10, 10, "RNHD00000001") && TextField(b, 23, 4, "1.0")
    && TextField(b, 27, 20, "RetroNet XT-IDE Hard Disk")
  }

  predicate Unused(i: int) {
    i == 2 || i == 4 || i == 5 || 7 <= i < 10 || 20 <= i < 23 || i == 48 || 50 <= i < 53 || i == 59 || 62 <= i
  }

  /** The identification block of a disk with this many sectors, as a driver decodes it. */
  ghost predicate Identifies(b: seq<Byte>, total: DWord) {
    && |b| == 512 && Capabilities(b) && Sizes(b, total) && Names(b)
    && forall i | 0 <= i < 256 && Unused(i) :: DriverWord(b, i) == 0
  }

  /** The block holds the identification words, low byte first. */
  ghost predicate Holds(b: seq<Byte>, total: DWord) {
    |b| == 512 && forall i | 0 <= i < 256 :: WordAt(b, i) == IdentifyWord(total, i)
  }

  lemma WordBytes(b: seq<Byte>, total: DWord, i: int, w: Word)
    requires Holds(b, total) && 0 <= i < 256 && w == IdentifyWord(total, i)
    ensures DriverWord(b, i) == w && b[2 * i] == Low(w) && b[2 * i + 1] == High(w)
  {
    assert WordAt(b, i) == w;
    JoinParts(b[2 * i], b[2 * i + 1]);
  }

  lemma TextBytes(b: seq<Byte>, total: DWord, first: int, words: int, s: string)
    requires Holds(b, total) && 0 <= first && 0 <= words && first + words <= 256
    requires forall i | 0 <= i < words :: IdentifyWord(total, first + i) == StringWord(s, i)
    ensures TextField(b, first, words, s)
  {
    forall i | 0 <= i < words
      ensures b[2 * (first + i) + 1] == FieldChar(s, 2 * i) && b[2 * (first + i)] == FieldChar(s, 2 * i + 1)
    {
      WordBytes(b, total, first + i, StringWord(s, i));
      StringBytes(s, i);
    }
  }

  lemma BlockCapabilities(b: seq<Byte>, total: DWord)
    requires Holds(b, total)
    ensures Capabilities(b)
  {
    WordBytes(b, total, 0, 0x0040);
    WordBytes(b, total, 47, 0x8000);
    WordBytes(b, total, 49, 0x0200);
    WordBytes(b, total, 53, 1);
  }

  lemma BlockGeometry(b: seq<Byte>, total: DWord)
    requires Holds(b, total)
    ensures DriverWord(b, 1) == DriverWord(b, 54) == Cylinders(total)
    ensures DriverWord(b, 3) == DriverWord(b, 55) == 16 && DriverWord(b, 6) == DriverWord(b, 56) == 63
  {
    GeometryWords(total);
    WordBytes(b, total, 1, IdentifyWord(total, 1));
    WordBytes(b, total, 54, IdentifyWord(total, 54));
    WordBytes(b, total, 3, IdentifyWord(total, 3));
    WordBytes(b, total, 55, IdentifyWord(total, 55));
    WordBytes(b, total, 6, IdentifyWord(total, 6));
    WordBytes(b, total, 56, IdentifyWord(total, 56));
  }

  lemma GeometryWords(total: DWord)
    ensures IdentifyWord(total, 1) == IdentifyWord(total, 54) == Cylinders(total)
    ensures IdentifyWord(total, 3) == IdentifyWord(total, 55) == 16
    ensures IdentifyWord(total, 6) == IdentifyWord(total, 56) == 63
  {
  }

  lemma BlockSizes(b: seq<Byte>, total: DWord)
    requires Holds(b, total)
    ensures Sizes(b, total)
  {
    BlockGeometry(b, total);
    CapacityWords(total);
    WordBytes(b, total, 57, IdentifyWord(total, 57));
    WordBytes(b, total, 58, IdentifyWord(total, 58));
    WordBytes(b, total, 60, IdentifyWord(total, 60));
    WordBytes(b, total, 61, IdentifyWord(total, 61));
  }

  lemma BlockNames(b: seq<Byte>, total: DWord)
    requires Holds(b, total)
    ensures Names(b)
  {
    TextBytes(b, total, 10, 10, SERIAL);
    TextBytes(b, total, 23, 4, REVISION);
    TextBytes(b, total, 27, 20, MODEL);
  }

  lemma BlockUnused(b: seq<Byte>, total: DWord)
    requires Holds(b, total)
    ensures forall i | 0 <= i < 256 && Unused(i) :: DriverWord(b, i) == 0
  {
    forall i | 0 <= i < 256 && Unused(i) ensures DriverWord(b, i) == 0 {
      WordBytes(b, total, i, 0);
    }
  }

  lemma BlockIdentifies(total: DWord)
    ensures Identifies(IdentifyBlock(total), total)
  {
    var b := IdentifyBlock(total);
    forall i | 0 <= i < 256 ensures WordAt(b, i) == IdentifyWord(total, i) {
      BlockWord(total, i);
    }
    BlockCapabilities(b, total);
    BlockSizes(b, total);
    BlockNames(b, total);
    BlockUnused(b, total);
  }

  /**
   IDENTIFY DEVICE through the 8-bit ports: 256 words with DRQ before each, which a driver
   decodes to geometry, capacity and names of the disk.
   */
  lemma IdentifyDelivers(c: Card)
    requires Sound(c) && Present(c.ata, c.drive)
    ensures OffersEachWord(OutPort(c, 0x7, 0xEC), 256)
    ensures var r := InBytes(OutPort(c, 0x7, 0xEC), 256);
            Identifies(r.1, c.drive.value.sectors) && r.0.drive == c.drive
  {
    var block := IdentifyBlock(c.drive.value.sectors);
    RegPort(c, 0x7, 0xEC);
    assert OutPort(c, 0x7, 0xEC).ata == Open(c.ata, block);
    ReadingOffers(OutPort(c, 0x7, 0xEC), block, 256);
    BlockIdentifies(c.drive.value.sectors);
  }
}
