/**
 * The steps of load_map (components/mapmini/src/map.c) after the file
 * header: choosing a zoom interval, finding the tile's entry in the tile
 * directory, reading the tile header (per-zoom POI and way counts and the
 * first-way offset) and the loop that decodes the ways.
 */
module MapTile {
  import opened Wrappers
  import opened Wire
  import opened FileIo
  import opened WayRecord
  import opened MapHeader

  // ---------------------------------------------------------------------
  // Interval selection
  // ---------------------------------------------------------------------

  /** An interval serves a zoom level strictly inside (min_zoom, max_zoom). */
  predicate Serves(iv: ZoomInterval, z: nat)
  {
    iv.minZoom < z < iv.maxZoom
  }

  /** The first interval that serves z, or None when no interval does. */
  function SelectInterval(ivs: seq<ZoomInterval>, z: nat): (r: Option<nat>)
    ensures r.Some? ==> r.value < |ivs| && Serves(ivs[r.value], z)
    ensures r.Some? ==> forall i :: 0 <= i < r.value ==> !Serves(ivs[i], z)
    ensures r.None? <==> forall i :: 0 <= i < |ivs| ==> !Serves(ivs[i], z)
    decreases |ivs|
  {
    if ivs == [] then None
    else if Serves(ivs[0], z) then Some(0)
    else
      match SelectInterval(ivs[1..], z)
      case None => None
      case Some(i) => Some(i + 1)
  }

  /**
   * The z_ds loop: the index of the first interval that serves z, and the
   * table length when none does.
   */
  method ScanIntervals(ivs: seq<ZoomInterval>, z: nat) returns (zds: nat)
    ensures zds <= |ivs|
    ensures forall i :: 0 <= i < zds ==> !Serves(ivs[i], z)
    ensures zds < |ivs| ==> Serves(ivs[zds], z)
    ensures SelectInterval(ivs, z) == if zds < |ivs| then Some(zds) else None
  {
    zds := 0;
    while zds < |ivs| && !Serves(ivs[zds], z)
      invariant zds <= |ivs|
      invariant forall i :: 0 <= i < zds ==> !Serves(ivs[i], z)
    {
      zds := zds + 1;
    }
  }

  /**
   * With the strict rule, a zoom level on the boundary of two adjacent
   * intervals is served by neither, and the scan runs off the table.
   */
  lemma BoundaryZoomServedByNone()
    ensures SelectInterval([ZoomInterval(12, 10, 14, 0, 0, 1, 1), ZoomInterval(16, 14, 18, 0, 0, 1, 1)], 14).None?
  {
  }

  // ---------------------------------------------------------------------
  // Tile directory
  // ---------------------------------------------------------------------

  /**
   * t_lookup: the tile's position in the interval's tile directory. The
   * column and row relative to the bounding box's origin tile are uint32_t
   * differences, and so are the product and sum.
   */
  function TileIndex(bbox: seq<int>, tm: TileMath, iv: ZoomInterval, x: nat, y: nat): (t: nat)
    requires |bbox| == 4
    ensures t < U32
  {
    var column := (x - tm.tileX(bbox[1], iv.baseZoom)) % U32;
    var row := (y - tm.tileY(bbox[2], iv.baseZoom)) % U32;
    (row * (iv.nTilesX % U32) + column) % U32
  }

  /**
   * A tile inside the interval's grid has index row * n_tiles_x + column,
   * which lies inside the directory of n_tiles_x * n_tiles_y entries, as
   * long as the directory has fewer than 2^32 entries.
   */
  lemma TileIndexInsideGrid(bbox: seq<int>, tm: TileMath, iv: ZoomInterval, x: nat, y: nat)
    requires |bbox| == 4
    requires 0 <= x - tm.tileX(bbox[1], iv.baseZoom) < iv.nTilesX
    requires 0 <= y - tm.tileY(bbox[2], iv.baseZoom) < iv.nTilesY
    requires iv.nTilesX * iv.nTilesY < U32
    ensures TileIndex(bbox, tm, iv, x, y) ==
              (y - tm.tileY(bbox[2], iv.baseZoom)) * iv.nTilesX + (x - tm.tileX(bbox[1], iv.baseZoom))
    ensures TileIndex(bbox, tm, iv, x, y) < iv.nTilesX * iv.nTilesY
  {
    var column: nat := x - tm.tileX(bbox[1], iv.baseZoom);
    var row: nat := y - tm.tileY(bbox[2], iv.baseZoom);
    var width: nat := iv.nTilesX;
    var height: nat := iv.nTilesY;
    MulMonotone(1, height, width);
    RowMajorBound(row, column, width, height);
    var index := row * width + column;
    assert width % U32 == width && column % U32 == column && row % U32 == row;
    assert index % U32 == index;
  }

  lemma RowMajorBound(row: nat, column: nat, width: nat, height: nat)
    requires row < height && column < width
    ensures row * width + column < width * height
  {
    MulMonotone(row, height - 1, width);
    assert (height - 1) * width + width == width * height;
  }

  lemma MulMonotone(a: nat, b: nat, c: nat)
    requires a <= b
    ensures a * c <= b * c
  {
  }

  /** The byte offset of a tile's 5-byte directory entry: sub_file + t_lookup*5, with t_lookup*5 in uint32_t. */
  function EntryAddress(subFile: nat, t: nat): (a: nat)
    ensures a < U64
  {
    (subFile + (t * 5) % U32) % U64
  }

  /** Without wrap-around the entry is the t-th 5-byte record after the sub-file start. */
  lemma EntryAddressUnwrapped(subFile: nat, t: nat)
    requires t * 5 < U32 && subFile + t * 5 < U64
    ensures EntryAddress(subFile, t) == subFile + 5 * t
  {
  }

  /** Length of a directory entry (get_varint(&fbh, 5)). */
  const EntryLength: nat := 5

  /** water_mask: bit 39 of a directory entry. */
  const WaterBit: nat := 0x80_0000_0000

  /** The water flag of a directory entry: for a 5-byte entry, set exactly when the entry reaches 2^39. */
  function IsWater(entry: nat): (water: bool)
    ensures entry < Pow256(EntryLength) ==> (water <==> WaterBit <= entry)
  {
    assert Pow256(EntryLength) == 2 * WaterBit;
    (entry / WaterBit) % 2 == 1
  }

  /** addr_mask: the low 39 bits, the tile's offset from the sub-file start. */
  function TileOffset(entry: nat): (offset: nat)
    ensures offset < WaterBit
  {
    entry % WaterBit
  }

  /** The directory entry holding a water flag and an offset. */
  function DirectoryEntry(water: bool, offset: nat): (entry: nat)
    requires offset < WaterBit
    ensures entry < 2 * WaterBit
  {
    (if water then WaterBit else 0) + offset
  }

  /** Splitting an entry gives back the flag and the offset it was built from. */
  lemma DirectoryEntrySplits(water: bool, offset: nat)
    requires offset < WaterBit
    ensures IsWater(DirectoryEntry(water, offset)) == water
    ensures TileOffset(DirectoryEntry(water, offset)) == offset
  {
    var e := DirectoryEntry(water, offset);
    if water {
      DivModUnique(e, 1, offset);
    } else {
      DivModUnique(e, 0, offset);
    }
  }

  /** Every 5-byte entry is the flag and the offset put back together. */
  lemma DirectoryEntryJoins(entry: nat)
    requires entry < Pow256(EntryLength)
    ensures entry == DirectoryEntry(IsWater(entry), TileOffset(entry))
  {
    assert Pow256(EntryLength) == 2 * WaterBit;
    var q := entry / WaterBit;
    assert entry == q * WaterBit + entry % WaterBit;
    assert q < 2;
  }

  lemma DivModUnique(e: nat, q: nat, r: nat)
    requires r < WaterBit && e == q * WaterBit + r
    ensures e / WaterBit == q && e % WaterBit == r
  {
  }

  // ---------------------------------------------------------------------
  // Tile header
  // ---------------------------------------------------------------------

  /** One row of the zoom table: POIs and ways of the tile at one zoom level. */
  datatype ZoomCount = ZoomCount(pois: nat, ways: nat)

  /** One row of the zoom table at p: two VBE-U integers. */
  function ZoomRow(f: seq<Byte>, p: nat): (r: Option<Parsed<ZoomCount>>)
    ensures r.Some? ==> p < r.value.next
  {
    var pois :- Vbe(f, p);
    var ways :- Vbe(f, pois.next);
    Some(Parsed(ZoomCount(pois.value, ways.value), ways.next))
  }

  /** The first k rows of the zoom table at p. */
  function ZoomCounts(f: seq<Byte>, p: nat, k: nat): (r: Option<Parsed<seq<ZoomCount>>>)
    ensures r.Some? ==> |r.value.value| == k && p <= r.value.next
    decreases k
  {
    if k == 0 then Some(Parsed([], p))
    else
      var init :- ZoomCounts(f, p, k - 1);
      var row :- ZoomRow(f, init.next);
      Some(Parsed(init.value + [row.value], row.next))
  }

  /** Reading one more row extends the rows read so far. */
  lemma ZoomCountsStep(f: seq<Byte>, p: nat, counts: seq<ZoomCount>, q: nat, row: ZoomCount, next: nat, counts': seq<ZoomCount>)
    requires ZoomCounts(f, p, |counts|) == Some(Parsed(counts, q)) && ZoomRow(f, q) == Some(Parsed(row, next))
    requires counts' == counts + [row]
    ensures ZoomCounts(f, p, |counts'|) == Some(Parsed(counts', next))
  {
  }

  lemma {:induction false} ZoomCountsFailurePersists(f: seq<Byte>, p: nat, k: nat, k': nat)
    requires k <= k' && ZoomCounts(f, p, k).None?
    ensures ZoomCounts(f, p, k').None?
    decreases k'
  {
    if k < k' {
      ZoomCountsFailurePersists(f, p, k, k' - 1);
    }
  }

  /** The zoom levels min_zoom .. max_zoom of an interval: the rows of its zoom table. */
  function Levels(iv: ZoomInterval): nat
  {
    if iv.minZoom <= iv.maxZoom then iv.maxZoom - iv.minZoom + 1 else 0
  }

  /** The tile header: one zoom-table row per level, then the first-way offset. */
  datatype TileHeader = TileHeader(counts: seq<ZoomCount>, firstWayOffset: nat)

  function ParseTileHeader(f: seq<Byte>, p: nat, iv: ZoomInterval): (r: Option<Parsed<TileHeader>>)
    ensures r.Some? ==> |r.value.value.counts| == Levels(iv) && p < r.value.next
  {
    var counts :- ZoomCounts(f, p, Levels(iv));
    var offset :- Vbe(f, counts.next);
    Some(Parsed(TileHeader(counts.value, offset.value), offset.next))
  }

  /** ParseTileHeader once the zoom table has been read: the first-way offset decides. */
  lemma TileHeaderFromParts(f: seq<Byte>, p: nat, iv: ZoomInterval, counts: Parsed<seq<ZoomCount>>,
                            offset: Option<Parsed<nat>>)
    requires ZoomCounts(f, p, Levels(iv)) == Some(counts) && offset == Vbe(f, counts.next)
    ensures offset.None? ==> ParseTileHeader(f, p, iv).None?
    ensures offset.Some? ==>
              ParseTileHeader(f, p, iv) == Some(Parsed(TileHeader(counts.value, offset.value.value), offset.value.next))
  {
  }

  /** The tile header a zoom table and a first-way offset make up, and the address it leads to. */
  lemma FirstWayFromParts(f: seq<Byte>, iv: ZoomInterval, offset: nat, counts: Parsed<seq<ZoomCount>>,
                          wayOffset: nat, end: nat, windowEnd: nat, addr: nat)
    requires ZoomCounts(f, TileStart(iv, offset), Levels(iv)) == Some(counts)
    requires Vbe(f, counts.next) == Some(Parsed(wayOffset, end))
    requires end <= windowEnd ==> addr == (end + wayOffset) % U32
    ensures ParseTileHeader(f, TileStart(iv, offset), iv).Some?
    ensures FirstWayAt(ParseTileHeader(f, TileStart(iv, offset), iv).value, windowEnd, addr)
  {
  }

  /** Slots of the pois[] and ways[] arrays. */
  const ZoomSlots: nat := 22

  /** The zoom level whose way count is decoded. */
  const DrawZoom: nat := 12

  /** The uint16_t slot a zoom table leaves for level z: its count at z, or 0 outside the interval. */
  function Slot(counts: seq<ZoomCount>, minZoom: nat, maxZoom: nat, z: nat, ways: bool): (r: nat)
    ensures r < U16
    ensures !(minZoom <= z <= maxZoom) ==> r == 0
  {
    if minZoom <= z <= maxZoom && z - minZoom < |counts| then
      (if ways then counts[z - minZoom].ways else counts[z - minZoom].pois) % U16
    else 0
  }

  /**
   * ways_to_draw: the way count of zoom level 12 as uint16_t, whatever zoom
   * was asked for; 0 when 12 is outside the interval.
   */
  function WaysToDraw(counts: seq<ZoomCount>, iv: ZoomInterval): (r: nat)
    ensures r < U16
    ensures !(iv.minZoom <= DrawZoom <= iv.maxZoom) ==> r == 0
    ensures iv.minZoom <= DrawZoom <= iv.maxZoom && |counts| == Levels(iv) ==>
              r == counts[DrawZoom - iv.minZoom].ways % U16
  {
    Slot(counts, iv.minZoom, iv.maxZoom, DrawZoom, true)
  }

  /** The zoom table fits the 22-slot arrays exactly when no level it writes is 22 or more. */
  predicate FitsSlots(iv: ZoomInterval)
  {
    iv.minZoom <= iv.maxZoom ==> iv.maxZoom < ZoomSlots
  }

  /** Where the tile header starts: sub_file + offset as uint64_t. */
  function TileStart(iv: ZoomInterval, offset: nat): nat
  {
    (iv.subFile + offset) % U64
  }

  /**
   * The address a header read from a window that still holds it leads to:
   * first_way_offset bytes after the header, as a uint32_t.
   */
  predicate FirstWayAt(th: Parsed<TileHeader>, windowEnd: nat, addr: nat)
  {
    th.next <= windowEnd ==> addr == (th.next + th.value.firstWayOffset) % U32
  }

  /** End of the window one fread at the tile start brings. */
  function TileEnd(fb: FileBuffer, iv: ZoomInterval, offset: nat): nat
    reads fb
  {
    TileStart(iv, offset) + Avail(fb.file, fb.capacity, TileStart(iv, offset))
  }

  /**
   * first_way_file_addr when the window still starts at the tile: the
   * buffer offset is the distance from the tile start, so the sum is the
   * reading position plus the first-way offset.
   */
  lemma FirstWayAddressArithmetic(iv: ZoomInterval, offset: nat, windowStart: nat, bufferPos: nat, fwo: nat, pos: nat)
    requires windowStart == TileStart(iv, offset) && pos == windowStart + bufferPos
    ensures (iv.subFile + offset + bufferPos + fwo % U32) % U32 == (pos + fwo) % U32
  {
    var base := iv.subFile + offset;
    var q := base / U64;
    assert base == q * U64 + base % U64;
    assert q * U64 == (q * 0x1_0000_0000) * U32;
    var m := fwo / U32;
    assert fwo == m * U32 + fwo % U32;
    var p := windowStart + bufferPos;
    assert base + bufferPos + fwo % U32 + m * U32 == (p + fwo) + (q * 0x1_0000_0000) * U32;
    ModShift(base + bufferPos + fwo % U32, m);
    ModShift(p + fwo, q * 0x1_0000_0000);
  }

  lemma ModShift(a: nat, k: nat)
    ensures (a + k * U32) % U32 == a % U32
  {
  }

  /** The slots of one array after the zoom table's levels min_zoom .. z-1 were stored. */
  ghost predicate Filled(a: seq<nat>, counts: seq<ZoomCount>, minZoom: nat, z: nat, wayCounts: bool)
  {
    |a| == ZoomSlots && z == minZoom + |counts| &&
    forall k :: 0 <= k < ZoomSlots ==>
      a[k] == if minZoom <= k < z then (if wayCounts then counts[k - minZoom].ways else counts[k - minZoom].pois) % U16 else 0
  }

  lemma FilledStep(before: seq<nat>, after: seq<nat>, counts: seq<ZoomCount>, minZoom: nat, z: nat, c: ZoomCount, wayCounts: bool)
    requires z < ZoomSlots && Filled(before, counts, minZoom, z, wayCounts)
    requires after == before[z := (if wayCounts then c.ways else c.pois) % U16]
    ensures Filled(after, counts + [c], minZoom, z + 1, wayCounts)
  {
  }

  /** pois[] and ways[] once the whole zoom table of an interval is stored. */
  ghost predicate Stored(pois: seq<nat>, ways: seq<nat>, counts: seq<ZoomCount>, iv: ZoomInterval)
  {
    |pois| == ZoomSlots && |ways| == ZoomSlots &&
    forall z :: 0 <= z < ZoomSlots ==>
      ways[z] == Slot(counts, iv.minZoom, iv.maxZoom, z, true) &&
      pois[z] == Slot(counts, iv.minZoom, iv.maxZoom, z, false)
  }

  lemma FilledDone(pois: seq<nat>, ways: seq<nat>, counts: seq<ZoomCount>, iv: ZoomInterval, z: nat)
    requires Filled(pois, counts, iv.minZoom, z, false) && Filled(ways, counts, iv.minZoom, z, true)
    requires |counts| == Levels(iv)
    ensures Stored(pois, ways, counts, iv)
  {
  }

  /** One row of the zoom table, read through the cursor. */
  method ReadZoomRow(fb: FileBuffer) returns (ok: bool, c: ZoomCount)
    requires fb.Ready()
    modifies fb`filePos, fb`bufferPos, fb`bytesRead, fb.buffer
    ensures fb.Ready() && fb.file == old(fb.file)
    ensures ZoomRow(fb.file, old(fb.Pos())) == if ok then Some(Parsed(c, fb.Pos())) else None
    ensures ok && fb.Pos() <= old(fb.filePos) ==> fb.filePos == old(fb.filePos) && fb.bytesRead == old(fb.bytesRead)
  {
    c := ZoomCount(0, 0);
    var pois, ways;
    ok, pois := fb.GetVbe();
    if !ok { return; }
    ok, ways := fb.GetVbe();
    if !ok { return; }
    c := ZoomCount(pois, ways);
  }

  /** Lines 324-325: the row of level z stored as uint16_t in pois[z] and ways[z]. */
  method StoreRow(pois: array<nat>, ways: array<nat>, z: nat, c: ZoomCount, ghost counts: seq<ZoomCount>, ghost minZoom: nat)
    requires pois != ways && z < ZoomSlots
    requires Filled(pois[..], counts, minZoom, z, false) && Filled(ways[..], counts, minZoom, z, true)
    modifies pois, ways
    ensures Filled(pois[..], counts + [c], minZoom, z + 1, false) && Filled(ways[..], counts + [c], minZoom, z + 1, true)
  {
    ghost var poisBefore, waysBefore := pois[..], ways[..];
    pois[z] := c.pois % U16;
    ways[z] := c.ways % U16;
    FilledStep(poisBefore, pois[..], counts, minZoom, z, c, false);
    FilledStep(waysBefore, ways[..], counts, minZoom, z, c, true);
  }

  /** One pass of the loop of lines 323-327: read the row of level z and store it. */
  method ReadLevel(fb: FileBuffer, pois: array<nat>, ways: array<nat>, z: nat,
                   ghost counts: seq<ZoomCount>, ghost minZoom: nat, ghost start: nat, ghost f0: nat, ghost b0: nat)
    returns (ok: bool, ghost c: ZoomCount)
    requires fb.Ready() && pois != ways && z < ZoomSlots
    requires ZoomCounts(fb.file, start, |counts|) == Some(Parsed(counts, fb.Pos()))
    requires Filled(pois[..], counts, minZoom, z, false) && Filled(ways[..], counts, minZoom, z, true)
    requires fb.Pos() <= f0 ==> fb.filePos == f0 && fb.bytesRead == b0
    modifies fb`filePos, fb`bufferPos, fb`bytesRead, fb.buffer, pois, ways
    ensures fb.Ready() && fb.file == old(fb.file)
    ensures !ok ==> ZoomCounts(fb.file, start, |counts| + 1).None?
    ensures ok ==> ZoomCounts(fb.file, start, |counts + [c]|) == Some(Parsed(counts + [c], fb.Pos()))
    ensures ok ==> Filled(pois[..], counts + [c], minZoom, z + 1, false) && Filled(ways[..], counts + [c], minZoom, z + 1, true)
    ensures ok && fb.Pos() <= f0 ==> fb.filePos == f0 && fb.bytesRead == b0
  {
    ghost var q := fb.Pos();
    var got, row := ReadZoomRow(fb);
    c := row;
    if !got {
      assert ZoomCounts(fb.file, start, |counts| + 1).None?;
      return false, c;
    }
    ghost var r := fb.Pos();
    StoreRow(pois, ways, z, row, counts, minZoom);
    ZoomCountsStep(fb.file, start, counts, q, row, r, counts + [row]);
    ok := true;
  }

  /**
   * The loop of lines 323-327: a (POI count, way count) pair for every level
   * from min_zoom to max_zoom, stored as uint16_t in the 22-slot arrays.
   */
  method ReadZoomTable(fb: FileBuffer, iv: ZoomInterval) returns (ok: bool, pois: array<nat>, ways: array<nat>)
    requires fb.Ready() && FitsSlots(iv)
    modifies fb`filePos, fb`bufferPos, fb`bytesRead, fb.buffer
    ensures fb.Ready() && fb.file == old(fb.file)
    ensures fresh(pois) && fresh(ways) && pois.Length == ZoomSlots && ways.Length == ZoomSlots
    ensures ok == ZoomCounts(fb.file, old(fb.Pos()), Levels(iv)).Some?
    ensures ok ==>
              var counts := ZoomCounts(fb.file, old(fb.Pos()), Levels(iv)).value;
              fb.Pos() == counts.next && Stored(pois[..], ways[..], counts.value, iv)
    ensures ok && fb.Pos() <= old(fb.filePos) ==> fb.filePos == old(fb.filePos) && fb.bytesRead == old(fb.bytesRead)
  {
    ghost var f, start, f0, b0 := fb.file, fb.Pos(), fb.filePos, fb.bytesRead;
    pois := new nat[ZoomSlots](_ => 0);
    ways := new nat[ZoomSlots](_ => 0);
    ghost var counts: seq<ZoomCount> := [];
    var z := iv.minZoom;
    while z <= iv.maxZoom
      invariant fb.Ready() && fb.file == f
      invariant |counts| <= Levels(iv)
      invariant ZoomCounts(f, start, |counts|) == Some(Parsed(counts, fb.Pos()))
      invariant Filled(pois[..], counts, iv.minZoom, z, false) && Filled(ways[..], counts, iv.minZoom, z, true)
      invariant fb.Pos() <= f0 ==> fb.filePos == f0 && fb.bytesRead == b0
    {
      var got, c := ReadLevel(fb, pois, ways, z, counts, iv.minZoom, start, f0, b0);
      if !got {
        ZoomCountsFailurePersists(f, start, |counts| + 1, Levels(iv));
        return false, pois, ways;
      }
      counts := counts + [c];
      z := z + 1;
    }
    FilledDone(pois[..], ways[..], counts, iv, z);
    ok := true;
  }

  /**
   * Lines 330-337: read first_way_offset and seek to first_way_file_addr =
   * sub_file + offset + buffer_pos + first_way_offset as uint32_t. While
   * the window is still the one that starts at the tile (it ends at windowEnd), buffer_pos counts the bytes
   * read since the tile start, so the address is the position after the
   * offset plus the offset.
   */
  method SeekFirstWay(fb: FileBuffer, iv: ZoomInterval, offset: nat, ghost windowEnd: nat)
    returns (ok: bool, firstWayAddr: nat, ghost wayOffset: nat, ghost end: nat)
    requires fb.Ready()
    requires fb.Pos() <= windowEnd ==> fb.filePos == windowEnd && fb.WindowStart() == TileStart(iv, offset)
    modifies fb`filePos, fb`bufferPos, fb`bytesRead, fb.buffer
    ensures fb.Ready() && fb.file == old(fb.file)
    ensures Vbe(fb.file, old(fb.Pos())) == if ok then Some(Parsed(wayOffset, end)) else None
    ensures ok ==> firstWayAddr < U32 && fb.Pos() == firstWayAddr
    ensures ok && end <= windowEnd ==> firstWayAddr == (end + wayOffset) % U32
  {
    var got;
    ok, got := fb.GetVbe();
    wayOffset, end := got, fb.Pos();
    if !ok {
      return false, 0, wayOffset, end;
    }
    if end <= windowEnd {
      FirstWayAddressArithmetic(iv, offset, fb.WindowStart(), fb.bufferPos, got, end);
    }
    firstWayAddr := (iv.subFile + offset + fb.bufferPos + got % U32) % U32;
    fb.Seek(firstWayAddr);
  }

  /**
   * Lines 317-337 of load_map: seek to the tile, fill pois[] and ways[]
   * from its zoom table, then seek to the first way. When the tile header
   * lies inside the window the seek to the tile brings, the first way is
   * first_way_offset bytes after the header.
   */
  method ReadTileHeader(fb: FileBuffer, iv: ZoomInterval, offset: nat)
    returns (ok: bool, pois: array<nat>, ways: array<nat>, firstWayAddr: nat)
    requires fb.Ready() && FitsSlots(iv)
    modifies fb`filePos, fb`bufferPos, fb`bytesRead, fb.buffer
    ensures fb.Ready() && fb.file == old(fb.file)
    ensures fresh(pois) && fresh(ways) && pois.Length == ZoomSlots && ways.Length == ZoomSlots
    ensures ok == ParseTileHeader(fb.file, TileStart(iv, offset), iv).Some?
    ensures ok ==>
              var th := ParseTileHeader(fb.file, TileStart(iv, offset), iv).value;
              Stored(pois[..], ways[..], th.value.counts, iv) &&
              firstWayAddr < U32 && fb.Pos() == firstWayAddr
    ensures ok ==> FirstWayAt(ParseTileHeader(fb.file, TileStart(iv, offset), iv).value, TileEnd(fb, iv, offset), firstWayAddr)
  {
    ghost var f := fb.file;
    var start := (iv.subFile + offset) % U64;
    assert start == TileStart(iv, offset);
    fb.Seek(start);
    ghost var windowEnd := TileEnd(fb, iv, offset);
    firstWayAddr := 0;
    ok, pois, ways := ReadZoomTable(fb, iv);
    if !ok {
      return;
    }
    ghost var counts := ZoomCounts(f, start, Levels(iv)).value;
    ghost var wayOffset, end;
    ok, firstWayAddr, wayOffset, end := SeekFirstWay(fb, iv, offset, windowEnd);
    if ok {
      FirstWayFromParts(f, iv, offset, counts, wayOffset, end, windowEnd, firstWayAddr);
    } else {
      TileHeaderFromParts(f, start, iv, counts, Vbe(f, counts.next));
    }
  }

  // ---------------------------------------------------------------------
  // The way loop
  // ---------------------------------------------------------------------

  /** The calls after the first: getWay shifted by one. */
  function After(getWay: nat -> WayDecode): nat -> WayDecode
  {
    (k: nat) => getWay(k + 1)
  }

  lemma CallsStep(getWay: nat -> WayDecode, n: nat)
    ensures Calls(getWay, n + 1) == Calls(getWay, n) + [getWay(n)]
  {
  }

  lemma KeptStep(ds: seq<WayDecode>, d: WayDecode)
    ensures Kept(ds + [d]) == Kept(ds) + if d.skipped then [] else [d.way]
  {
    assert (ds + [d])[..|ds|] == ds;
  }

  lemma SkipsStep(ds: seq<WayDecode>, d: WayDecode)
    ensures Skips(ds + [d]) == Skips(ds) + if d.skipped then 1 else 0
  {
    assert (ds + [d])[..|ds|] == ds;
  }

  /**
   * One decode step on the slots: the kept prefix slots[lo..w] of the stream
   * ds grows by the way in slot w when that way was not skipped.
   */
  lemma SlotStep(before: seq<Way>, after: seq<Way>, lo: nat, w: nat, ds: seq<WayDecode>, d: WayDecode)
    requires lo <= w < |before| == |after|
    requires before[lo..w] == Kept(ds)
    requires after == before[w := d.way]
    ensures after[lo..w] == Kept(ds)
    ensures !d.skipped ==> after[lo..w + 1] == Kept(ds + [d])
    ensures d.skipped ==> Kept(ds + [d]) == Kept(ds)
  {
    KeptStep(ds, d);
    assert after[lo..w] == before[lo..w];
    if !d.skipped {
      assert after[lo..w + 1] == after[lo..w] + [d.way];
    }
  }

  /**
   * The way loop as intended: a skipped way is decoded over by the next
   * call, so the slots end up holding exactly the kept ways in order, and
   * `declared` calls are made.
   */
  method DecodeWays(getWay: nat -> WayDecode, declared: nat, slots: array<Way>) returns (count: nat)
    requires declared <= slots.Length
    modifies slots
    ensures count <= declared
    ensures slots[..count] == Kept(Calls(getWay, declared))
    ensures count == declared - Skips(Calls(getWay, declared))
  {
    var w, toDraw, call := 0, declared, 0;
    while w < toDraw
      invariant w <= toDraw <= declared && call == w + (declared - toDraw)
      invariant slots[0..w] == Kept(Calls(getWay, call))
      invariant toDraw == declared - Skips(Calls(getWay, call))
      decreases toDraw - w
    {
      ghost var ds, before := Calls(getWay, call), slots[..];
      var d := getWay(call);
      slots[w] := d.way;
      SlotStep(before, slots[..], 0, w, ds, d);
      SkipsStep(ds, d);
      CallsStep(getWay, call);
      if d.skipped {
        toDraw := toDraw - 1;
      } else {
        w := w + 1;
      }
      call := call + 1;
    }
    count := toDraw;
    assert slots[..count] == slots[0..w];
  }

  /** The calls the loop as written makes: one fewer when the first of at least two is skipped. */
  function CallsAsWritten(getWay: nat -> WayDecode, declared: nat): (calls: nat)
    ensures calls <= declared <= calls + 1
    ensures calls < declared <==> 2 <= declared && getWay(0).skipped
  {
    if declared >= 2 && getWay(0).skipped then declared - 1 else declared
  }

  /**
   * The slots the loop as written leaves: a skip in slot 0 leaves the
   * skipped way there and the remaining calls fill slots from 1.
   */
  function KeptAsWritten(getWay: nat -> WayDecode, declared: nat): (slots: seq<Way>)
    ensures |slots| <= declared
    ensures !(2 <= declared && getWay(0).skipped) ==> slots == Kept(Calls(getWay, declared))
    ensures 2 <= declared && getWay(0).skipped ==> 1 <= |slots| && slots[0] == getWay(0).way
  {
    if declared >= 2 && getWay(0).skipped then
      KeptCount(Calls(After(getWay), declared - 2));
      [getWay(0).way] + Kept(Calls(After(getWay), declared - 2))
    else
      KeptCount(Calls(getWay, declared));
      Kept(Calls(getWay, declared))
  }

  /**
   * The slots from `pinned` up to w hold the kept ways of the first n calls
   * of `stream`, and every one of those calls either filled a slot or
   * lowered toDraw.
   */
  ghost predicate StreamFilled(s: seq<Way>, stream: nat -> WayDecode, declared: nat, w: nat, toDraw: nat, pinned: nat, n: nat)
  {
    pinned <= w <= |s| && s[pinned..w] == Kept(Calls(stream, n)) &&
    toDraw == declared - pinned - Skips(Calls(stream, n)) &&
    n == (w - pinned) + (declared - pinned - toDraw)
  }

  /** After a skip at slot 0 the stream restarts, one call later, behind the pinned slot. */
  lemma StreamPinned(s: seq<Way>, getWay: nat -> WayDecode, declared: nat)
    requires 1 <= declared && 1 <= |s|
    ensures StreamFilled(s, After(getWay), declared, 1, declared - 1, 1, 0)
  {
    assert Calls(After(getWay), 0) == [];
  }

  /** One call of the stream decoded into slot w. */
  lemma StreamStep(before: seq<Way>, after: seq<Way>, stream: nat -> WayDecode, declared: nat,
                   w: nat, toDraw: nat, pinned: nat, n: nat)
    requires StreamFilled(before, stream, declared, w, toDraw, pinned, n) && w < toDraw && w < |before|
    requires after == before[w := stream(n).way]
    ensures stream(n).skipped ==> StreamFilled(after, stream, declared, w, toDraw - 1, pinned, n + 1)
    ensures !stream(n).skipped ==> StreamFilled(after, stream, declared, w + 1, toDraw, pinned, n + 1)
  {
    var ds, d := Calls(stream, n), stream(n);
    SlotStep(before, after, pinned, w, ds, d);
    SkipsStep(ds, d);
    CallsStep(stream, n);
  }

  /**
   * The state of the loop as written after `calls` calls: after a skip at
   * slot 0 that slot is pinned, and the later calls form the stream getWay
   * shifted by one, of which n calls were made.
   */
  ghost predicate AsWrittenState(s: seq<Way>, getWay: nat -> WayDecode, declared: nat, w: nat, toDraw: nat, calls: nat,
                                 pinned: nat, stream: nat -> WayDecode, n: nat)
  {
    toDraw <= declared && w <= declared && pinned <= 1 && calls == n + pinned &&
    (calls == 0 ==> w == 0 && toDraw == declared) &&
    (calls > 0 ==> w >= 1 && (pinned == 1 <==> declared >= 1 && getWay(0).skipped)) &&
    (pinned == 0 ==> stream == getWay) &&
    (pinned == 1 ==> stream == After(getWay) && 1 <= |s| && s[0] == getWay(0).way) &&
    w <= toDraw + pinned && (declared >= 2 || pinned == 0 ==> w <= toDraw) &&
    StreamFilled(s, stream, declared, w, toDraw, pinned, n)
  }

  /** One pass of the loop as written: decode into slot w, then step w back on a skip unless it is 0. */
  method AsWrittenStep(getWay: nat -> WayDecode, declared: nat, slots: array<Way>, w: nat, toDraw: nat, calls: nat,
                       ghost pinned: nat, ghost stream: nat -> WayDecode, ghost n: nat)
    returns (w': nat, toDraw': nat, ghost pinned': nat, ghost stream': nat -> WayDecode, ghost n': nat)
    requires declared <= slots.Length && w < toDraw
    requires AsWrittenState(slots[..], getWay, declared, w, toDraw, calls, pinned, stream, n)
    modifies slots
    ensures AsWrittenState(slots[..], getWay, declared, w', toDraw', calls + 1, pinned', stream', n')
    ensures toDraw' - w' < toDraw - w
  {
    var d := getWay(calls);
    ghost var before := slots[..];
    slots[w] := d.way;
    w', toDraw' := w, toDraw;
    if d.skipped {
      if w' > 0 {
        w' := w' - 1;
      }
      toDraw' := toDraw' - 1;
    }
    w' := w' + 1;
    if calls == 0 && d.skipped {
      pinned', stream', n' := 1, After(getWay), 0;
      StreamPinned(slots[..], getWay, declared);
    } else {
      assert d == stream(n);
      StreamStep(before, slots[..], stream, declared, w, toDraw, pinned, n);
      pinned', stream', n' := pinned, stream, n + 1;
    }
  }

  /**
   * Lines 367-373 of load_map as written: on a skip, w steps back only when
   * it is positive, so a skip at slot 0 still moves on to slot 1.
   */
  method DecodeWaysAsWritten(getWay: nat -> WayDecode, declared: nat, slots: array<Way>) returns (count: nat, calls: nat)
    requires declared <= slots.Length
    modifies slots
    ensures calls == CallsAsWritten(getWay, declared)
    ensures count <= declared && slots[..count] == KeptAsWritten(getWay, declared)
  {
    var w: nat, toDraw: nat := 0, declared;
    calls := 0;
    ghost var pinned: nat, stream, n: nat := 0, getWay, 0;
    assert Calls(getWay, 0) == [];
    while w < toDraw
      invariant AsWrittenState(slots[..], getWay, declared, w, toDraw, calls, pinned, stream, n)
      decreases toDraw - w
    {
      w, toDraw, pinned, stream, n := AsWrittenStep(getWay, declared, slots, w, toDraw, calls, pinned, stream, n);
      calls := calls + 1;
    }
    count := toDraw;
    AsWrittenResult(slots[..], getWay, declared, w, toDraw, pinned, n, stream);
  }

  /** When the loop as written stops, its slots hold KeptAsWritten. */
  lemma AsWrittenResult(s: seq<Way>, getWay: nat -> WayDecode, declared: nat, w: nat, toDraw: nat,
                        pinned: nat, n: nat, stream: nat -> WayDecode)
    requires StreamFilled(s, stream, declared, w, toDraw, pinned, n) && w >= toDraw && toDraw <= declared <= |s|
    requires pinned <= 1 && w <= toDraw + pinned && (declared >= 2 || pinned == 0 ==> w <= toDraw)
    requires pinned == 0 ==> stream == getWay
    requires pinned == 1 ==> stream == After(getWay) && s[0] == getWay(0).way && declared >= 1 && getWay(0).skipped
    requires pinned == 0 && declared >= 1 ==> !getWay(0).skipped || n == 0
    requires n + pinned == CallsAsWritten(getWay, declared) || n + pinned == 0
    ensures s[..toDraw] == KeptAsWritten(getWay, declared)
  {
    if pinned == 1 && declared >= 2 {
      assert s[..toDraw] == [s[0]] + s[1..w];
    } else if pinned == 1 {
      CallsStep(getWay, 0);
      KeptStep([], getWay(0));
    } else {
      assert s[..toDraw] == s[0..w];
    }
  }

  /**
   * A skip at slot 0 followed by a kept way: the intended loop keeps just
   * the second way and makes two calls; the loop as written keeps the
   * skipped way instead and makes one call.
   */
  lemma SkipAtSlotZeroKeepsSkippedWay(skipped: Way, kept: Way)
    requires skipped != kept
    ensures var getWay := (k: nat) => if k == 0 then WayDecode(skipped, true) else WayDecode(kept, false);
            Kept(Calls(getWay, 2)) == [kept] &&
            KeptAsWritten(getWay, 2) == [skipped] &&
            CallsAsWritten(getWay, 2) == 1
  {
    var getWay := (k: nat) => if k == 0 then WayDecode(skipped, true) else WayDecode(kept, false);
    CallsStep(getWay, 0);
    CallsStep(getWay, 1);
    KeptStep([], getWay(0));
    KeptStep([getWay(0)], getWay(1));
    assert Calls(After(getWay), 0) == [];
  }
}
