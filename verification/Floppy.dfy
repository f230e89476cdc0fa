/** Raw floppy images with a standard geometry and CHS addressing. */
module FloppyDisk {
  import opened Bytes

  datatype Geometry = Geometry(cylinders: int, heads: int, sectors: int, sectorSize: int)

  function ImageSize(g: Geometry): int {
    g.cylinders * g.heads * g.sectors * g.sectorSize
  }

  const FORMATS: seq<Geometry> := [
    Geometry(40, 2, 9, 512),
    Geometry(80, 2, 9, 512),
    Geometry(80, 2, 15, 512),
    Geometry(80, 2, 18, 512)
  ]

  predicate Standard(g: Geometry) {
    g in FORMATS
  }

  predicate ValidChs(g: Geometry, c: int, h: int, s: int) {
    0 <= c < g.cylinders && 0 <= h < g.heads && 1 <= s <= g.sectors
  }

  /** Where the sector starts in the image; sectors count from one. */
  function SectorOffset(g: Geometry, c: int, h: int, s: int): int {
    ((c * g.heads + h) * g.sectors + (s - 1)) * g.sectorSize
  }

  /** The four formats, by size of the image. */
  lemma FormatsAre(g: Geometry)
    ensures Standard(g) <==>
            g in {Geometry(40, 2, 9, 512), Geometry(80, 2, 9, 512), Geometry(80, 2, 15, 512), Geometry(80, 2, 18, 512)}
    ensures ImageSize(Geometry(40, 2, 9, 512)) == 360 * 1024 && ImageSize(Geometry(80, 2, 9, 512)) == 720 * 1024
    ensures ImageSize(Geometry(80, 2, 15, 512)) == 1200 * 1024 && ImageSize(Geometry(80, 2, 18, 512)) == 1440 * 1024
  {
    assert FORMATS[0] in FORMATS && FORMATS[1] in FORMATS && FORMATS[2] in FORMATS && FORMATS[3] in FORMATS;
    if g in FORMATS {
      var i :| 0 <= i < |FORMATS| && FORMATS[i] == g;
      if i == 0 {} else if i == 1 {} else if i == 2 {} else {}
    }
  }

  lemma FormatFacts(g: Geometry)
    requires Standard(g)
    ensures g.sectorSize == 512 && g.heads == 2 && 9 <= g.sectors <= 18
    ensures ImageSize(g) == 368640 || ImageSize(g) == 737280 || ImageSize(g) == 1228800 || ImageSize(g) == 1474560
  {
    var i :| 0 <= i < |FORMATS| && FORMATS[i] == g;
    if i == 0 {} else if i == 1 {} else if i == 2 {} else {}
  }

  /** A legal sector lies wholly inside the image. */
  lemma SectorInside(g: Geometry, c: int, h: int, s: int)
    requires Standard(g) && ValidChs(g, c, h, s)
    ensures 0 <= SectorOffset(g, c, h, s)
    ensures SectorOffset(g, c, h, s) + 512 <= ImageSize(g)
  {
    FormatFacts(g);
    var i :| 0 <= i < |FORMATS| && FORMATS[i] == g;
    if i == 0 {} else if i == 1 {} else if i == 2 {} else {}
  }

  /** The sectors of a track follow one another. */
  lemma SectorStep(g: Geometry, c: int, h: int, s: int, n: int)
    requires Standard(g)
    ensures SectorOffset(g, c, h, s + n) == SectorOffset(g, c, h, s) + 512 * n
  {
    FormatFacts(g);
  }

  /**
   Sectors lie in the image in the order cylinder, head, sector, without gaps: the first
   is at the start, each track follows the one before - the other side of the cylinder,
   then the next cylinder - and the last sector ends the image.
   */
  lemma SectorsInOrder(g: Geometry, c: int, h: int, s: int)
    requires Standard(g) && ValidChs(g, c, h, s)
    ensures SectorOffset(g, 0, 0, 1) == 0
    ensures var next := SectorOffset(g, c, h, s) + 512;
            if s < g.sectors then next == SectorOffset(g, c, h, s + 1)
            else if h + 1 < g.heads then next == SectorOffset(g, c, h + 1, 1)
            else if c + 1 < g.cylinders then next == SectorOffset(g, c + 1, 0, 1)
            else next == ImageSize(g)
  {
    FormatFacts(g);
    var t := 2 * c + h;
    OffsetIs(g, c, h, s, t);
    if s < g.sectors {
      OffsetIs(g, c, h, s + 1, t);
    } else {
      Multiples(t, g.sectors);
      if h == 0 {
        OffsetIs(g, c, 1, 1, t + 1);
      } else {
        OffsetIs(g, c + 1, 0, 1, t + 1);
      }
    }
    OffsetIs(g, 0, 0, 1, 0);
    OffsetIs(g, g.cylinders, 0, 1, 2 * g.cylinders);
    EndOfImage(g);
  }

  /** Tracks count two to a cylinder. */
  lemma OffsetIs(g: Geometry, c: int, h: int, s: int, t: int)
    requires Standard(g) && t == 2 * c + h
    ensures SectorOffset(g, c, h, s) == 512 * (t * g.sectors + s - 1)
  {
    FormatFacts(g);
  }

  lemma EndOfImage(g: Geometry)
    requires Standard(g)
    ensures SectorOffset(g, g.cylinders, 0, 1) == ImageSize(g)
  {
    FormatFacts(g);
  }

  lemma Multiples(t: int, n: int)
    ensures (t + 1) * n == t * n + n
  {
  }

  lemma TracksApart(t: int, t': int, sectors: int)
    requires t < t' && 0 < sectors
    ensures t * sectors + sectors <= t' * sectors
  {
    assert (t' - t - 1) * sectors >= 0;
    assert t' * sectors == t * sectors + sectors + (t' - t - 1) * sectors;
  }

  /** Different legal addresses are different, disjoint sectors. */
  lemma SectorsDisjoint(g: Geometry, c: int, h: int, s: int, c': int, h': int, s': int)
    requires Standard(g) && ValidChs(g, c, h, s) && ValidChs(g, c', h', s')
    requires (c, h, s) != (c', h', s')
    ensures SectorOffset(g, c, h, s) + 512 <= SectorOffset(g, c', h', s')
         || SectorOffset(g, c', h', s') + 512 <= SectorOffset(g, c, h, s)
  {
    FormatFacts(g);
    var t, t' := c * g.heads + h, c' * g.heads + h';
    if t < t' {
      TracksApart(t, t', g.sectors);
    } else if t' < t {
      TracksApart(t', t, g.sectors);
    }
  }

  /** The smallest standard format that holds `n` bytes. */
  ghost predicate SmallestFormat(n: int, g: Geometry) {
    Standard(g) && n <= ImageSize(g) && forall f | Standard(f) && n <= ImageSize(f) :: ImageSize(g) <= ImageSize(f)
  }

  /** `bytes` copied over `image` from `off`. */
  function Overwrite(image: seq<Byte>, off: int, bytes: seq<Byte>): (r: seq<Byte>)
    requires 0 <= off && off + |bytes| <= |image|
    ensures |r| == |image|
    ensures forall i | 0 <= i < |image| :: r[i] == if off <= i < off + |bytes| then bytes[i - off] else image[i]
  {
    image[..off] + bytes + image[off + |bytes|..]
  }

  /** As many bytes as a sector takes. */
  function Clipped(bytes: seq<Byte>): seq<Byte> {
    bytes[..Min(512, |bytes|)]
  }

  lemma OverwriteAppend(image: seq<Byte>, off: int, x: seq<Byte>, y: seq<Byte>)
    requires 0 <= off && off + |x| + |y| <= |image|
    ensures Overwrite(Overwrite(image, off, x), off + |x|, y) == Overwrite(image, off, x + y)
  {
  }

  class Floppy {
    const data: array<Byte>
    const geo: Geometry

    ghost predicate Valid() {
      Standard(geo) && data.Length == ImageSize(geo)
    }

    constructor (data: array<Byte>, geo: Geometry)
      requires Standard(geo) && data.Length == ImageSize(geo)
      ensures Valid() && this.data == data && this.geo == geo
    {
      this.data, this.geo := data, geo;
    }

    method Offset(c: int, h: int, s: int) returns (off: Option<int>)
      ensures off == if ValidChs(geo, c, h, s) then Some(SectorOffset(geo, c, h, s)) else None
    {
      if c < 0 || c >= geo.cylinders || h < 0 || h >= geo.heads || s < 1 || s > geo.sectors {
        return None;
      }
      var lba := (c * geo.heads + h) * geo.sectors + (s - 1);
      off := Some(lba * geo.sectorSize);
    }

    /** A copy of the sector's bytes, or nothing for an address outside the geometry. */
    method ReadSector(c: int, h: int, s: int) returns (r: Option<seq<Byte>>)
      requires Valid()
      ensures r.Some? <==> ValidChs(geo, c, h, s)
      ensures r.Some? ==>
        var off := 512 * ((c * geo.heads + h) * geo.sectors + s - 1);
        && off == SectorOffset(geo, c, h, s)
        && 0 <= off && off + 512 <= data.Length && r.value == data[off..off + 512]
    {
      var off := Offset(c, h, s);
      if off == None {
        return None;
      }
      SectorInside(geo, c, h, s);
      FormatFacts(geo);
      r := Some(data[off.value..off.value + geo.sectorSize]);
    }

    /** Writes at most one sector of bytes; a short write leaves the sector's tail alone, a long one is cut. */
    method WriteSector(c: int, h: int, s: int, bytes: seq<Byte>) returns (ok: bool)
      requires Valid()
      modifies data
      ensures ok <==> ValidChs(geo, c, h, s)
      ensures !ok ==> data[..] == old(data[..])
      ensures ok ==>
        var off := 512 * ((c * geo.heads + h) * geo.sectors + s - 1);
        && off == SectorOffset(geo, c, h, s)
        && 0 <= off && off + 512 <= data.Length && data[..] == Overwrite(old(data[..]), off, Clipped(bytes))
    {
      var off := Offset(c, h, s);
      if off == None {
        return false;
      }
      SectorInside(geo, c, h, s);
      var base := off.value;
      ghost var before := data[..];
      FormatFacts(geo);
      var n := Min(geo.sectorSize, |bytes|);
      forall i | 0 <= i < n {
        data[base + i] := bytes[i];
      }
      ok := true;
      assert data[..] == Overwrite(before, base, Clipped(bytes));
    }
  }

  /**
   Wraps an image: the format is the smallest that holds it, a shorter image is
   padded with zeros, and an image of exactly that size is used in place.
   */
  method NewFloppy(image: array<Byte>) returns (f: Floppy?)
    ensures f == null <==> 1474560 < image.Length
    ensures f != null ==>
      && f.Valid() && SmallestFormat(image.Length, f.geo)
      && f.geo == FormatFor(image.Length)
      && f.data.Length >= image.Length
      && (forall i | 0 <= i < f.data.Length :: f.data[i] == if i < image.Length then image[i] else 0)
      && (f.data == image <==> image.Length == ImageSize(f.geo))
      && (f.data != image ==> fresh(f.data))
  {
    FormatSizes();
    for i := 0 to |FORMATS|
      invariant forall k | 0 <= k < i :: ImageSize(FORMATS[k]) != image.Length
    {
      if ImageSize(FORMATS[i]) == image.Length {
        f := new Floppy(image, FORMATS[i]);
        SmallestIs(image.Length, FORMATS[i]);
        return;
      }
    }
    for i := 0 to |FORMATS|
      invariant forall k | 0 <= k < i :: ImageSize(FORMATS[k]) < image.Length
    {
      if image.Length < ImageSize(FORMATS[i]) {
        var padded := new Byte[ImageSize(FORMATS[i])](
          k requires 0 <= k reads image => if k < image.Length then image[k] else 0);
        f := new Floppy(padded, FORMATS[i]);
        forall g | Standard(g) && image.Length <= ImageSize(g) ensures ImageSize(FORMATS[i]) <= ImageSize(g) {
          var k :| 0 <= k < |FORMATS| && FORMATS[k] == g;
        }
        SmallestIs(image.Length, FORMATS[i]);
        return;
      }
    }
    f := null;
  }

  /** The smallest format for an image of `n` bytes: 360 KB, 720 KB, 1.2 MB or 1.44 MB. */
  function FormatFor(n: int): Geometry {
    if n <= 368640 then Geometry(40, 2, 9, 512)
    else if n <= 737280 then Geometry(80, 2, 9, 512)
    else if n <= 1228800 then Geometry(80, 2, 15, 512)
    else Geometry(80, 2, 18, 512)
  }

  lemma SmallestIs(n: int, g: Geometry)
    requires 0 <= n && SmallestFormat(n, g)
    ensures g == FormatFor(n)
  {
    FormatsAre(g);
    FormatsAre(FormatFor(n));
    FormatSizes();
  }

  lemma FormatSizes()
    ensures forall i, j | 0 <= i < j < |FORMATS| :: ImageSize(FORMATS[i]) < ImageSize(FORMATS[j])
    ensures ImageSize(FORMATS[0]) == 368640 && ImageSize(FORMATS[3]) == 1474560
  {
  }
}
