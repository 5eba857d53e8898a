/**
 * load_map of components/mapmini/src/map.c as a whole: open the file, check
 * the magic, read the header, choose the zoom interval, look the tile up in
 * the tile directory, read its header and decode its ways into a list
 * allocated from the arena.
 *
 * LoadSpec is the reference definition of what one call produces; LoadMap
 * is the step-by-step procedure, proved to produce exactly LoadSpec.
 */
module MapLoad {
  import opened Wrappers
  import opened Wire
  import opened FileIo
  import opened Memory
  import opened WayRecord
  import opened MapHeader
  import opened MapTile

  /**
   * How a call ends. NotOpened, BadMagic, Water and Loaded are the paths the
   * code takes on purpose; the others are where the code reads past the end
   * of the file or past an array, or writes through a NULL list, and its
   * behaviour is not defined.
   */
  datatype LoadOutcome =
    | NotOpened
    | BadMagic
    | ShortRead
    | NoInterval
    | ZoomTableOverflow
    | ArenaOverflow
    | Water
    | Loaded(ways: seq<Way>, declared: nat)

  /** The value load_map returns, where it returns one. */
  function ReturnCode(o: LoadOutcome): (r: Option<int>)
    ensures r.Some? <==> o.NotOpened? || o.BadMagic? || o.Water? || o.Loaded?
    ensures r == Some(-1) <==> o.BadMagic?
    ensures o.Loaded? ==> r == Some(|o.ways|)
  {
    match o
    case NotOpened => Some(1)
    case BadMagic => Some(-1)
    case Water => Some(0)
    case Loaded(ways, _) => Some(|ways|)
    case _ => None
  }

  /**
   * A caller cannot tell a failed open from a tile with one way, nor an
   * all-water tile from a tile whose ways were all skipped.
   */
  lemma ReturnCodeCollisions(w: Way)
    ensures ReturnCode(NotOpened) == ReturnCode(Loaded([w], 1))
    ensures ReturnCode(Water) == ReturnCode(Loaded([], 1))
  {
  }

  /**
   * sizeof(way_prop) * ways_to_draw: the bytes asked of the arena for the
   * way list, room for `declared` records of wayPropSize bytes each.
   */
  function ListSize(wayPropSize: nat, declared: nat): (bytes: nat)
    ensures declared > 0 ==> wayPropSize <= bytes
    ensures wayPropSize > 0 ==> declared <= bytes
    ensures bytes == 0 <==> wayPropSize == 0 || declared == 0
  {
    wayPropSize * declared
  }

  /**
   * What the tile lookup produces once the header is read: `free` is what
   * the arena has left (size - current) and `wayPropSize` is sizeof(way_prop).
   */
  function TileSpec(file: seq<Byte>, h: Header, tm: TileMath, x: nat, y: nat, z: nat,
                    free: int, wayPropSize: nat, getWay: nat -> WayDecode): (r: LoadOutcome)
    requires |h.fixed.boundingBox| == 4
    ensures r.Loaded? ==> r.declared < U16 && |r.ways| <= r.declared
    ensures r.Loaded? ==> r.ways == Kept(Calls(getWay, r.declared)) &&
                          |r.ways| == r.declared - Skips(Calls(getWay, r.declared))
    ensures r.NoInterval? <==> SelectInterval(h.zoomIntervals, z).None?
    ensures !r.NotOpened? && !r.BadMagic?
  {
    match SelectInterval(h.zoomIntervals, z)
    case None => NoInterval
    case Some(i) =>
      var iv := h.zoomIntervals[i];
      match Uint(file, EntryAddress(iv.subFile, TileIndex(h.fixed.boundingBox, tm, iv, x, y)), EntryLength)
      case None => ShortRead
      case Some(entry) =>
        if IsWater(entry.value) then Water
        else if !FitsSlots(iv) then ZoomTableOverflow
        else
          match ParseTileHeader(file, TileStart(iv, TileOffset(entry.value)), iv)
          case None => ShortRead
          case Some(th) =>
            var declared := WaysToDraw(th.value.counts, iv);
            if ListSize(wayPropSize, declared) > free then ArenaOverflow
            else
              KeptCount(Calls(getWay, declared));
              Loaded(Kept(Calls(getWay, declared)), declared)
  }

  /** What one load_map call produces; `f` is None when the file cannot be opened. */
  function LoadSpec(f: Option<seq<Byte>>, tm: TileMath, x: nat, y: nat, z: nat,
                    free: int, wayPropSize: nat, getWay: nat -> WayDecode): (r: LoadOutcome)
    ensures r.NotOpened? <==> f.None?
    ensures r.BadMagic? <==> f.Some? && !HasMagic(f.value)
    ensures r.Loaded? ==> r.ways == Kept(Calls(getWay, r.declared)) &&
                          |r.ways| == r.declared - Skips(Calls(getWay, r.declared))
  {
    match f
    case None => NotOpened
    case Some(file) =>
      if !HasMagic(file) then BadMagic
      else
        match ParseHeader(file, tm)
        case None => ShortRead
        case Some(h) => TileSpec(file, h.value, tm, x, y, z, free, wayPropSize, getWay)
  }

  /**
   * The way count is the one of zoom level 12 whatever zoom was asked for:
   * a tile read through an interval that does not cover level 12 loads no
   * way and returns 0, like an all-water tile.
   */
  lemma NoWaysOutsideZoom12(file: seq<Byte>, h: Header, tm: TileMath, x: nat, y: nat, z: nat,
                            free: int, wayPropSize: nat, getWay: nat -> WayDecode)
    requires |h.fixed.boundingBox| == 4
    requires SelectInterval(h.zoomIntervals, z).Some?
    requires var iv := h.zoomIntervals[SelectInterval(h.zoomIntervals, z).value];
             !(iv.minZoom <= DrawZoom <= iv.maxZoom)
    requires TileSpec(file, h, tm, x, y, z, free, wayPropSize, getWay).Loaded?
    ensures TileSpec(file, h, tm, x, y, z, free, wayPropSize, getWay) == Loaded([], 0)
    ensures ReturnCode(TileSpec(file, h, tm, x, y, z, free, wayPropSize, getWay)) == ReturnCode(Water)
  {
    assert Calls(getWay, 0) == [];
  }

  /**
   * The magic test on the freshly filled, zero-initialised window: the
   * window holds the first n bytes of the file (all of it when n < 20) and
   * zeros after them, and the magic has no zero byte.
   */
  lemma WindowMagic(buf: seq<Byte>, file: seq<Byte>, n: nat)
    requires 20 <= |buf| && n <= |buf| && n <= |file|
    requires buf[..n] == file[..n] && (n < 20 ==> n == |file|)
    requires forall i :: n <= i < |buf| ==> buf[i] == 0
    ensures buf[..20] == Magic <==> HasMagic(file)
  {
    if n >= 20 {
      assert buf[..20] == buf[..n][..20] && file[..20] == file[..n][..20];
    } else {
      assert buf[..20][19] == 0 != Magic[19];
    }
  }

  /** Lines 296-305: the tile's directory entry, read at sub_file + t_lookup*5. */
  method ReadEntry(fb: FileBuffer, bbox: seq<int>, tm: TileMath, iv: ZoomInterval, x: nat, y: nat)
    returns (ok: bool, entry: nat)
    requires fb.Ready() && |bbox| == 4
    modifies fb`filePos, fb`bufferPos, fb`bytesRead, fb.buffer
    ensures fb.Ready() && fb.file == old(fb.file)
    ensures Uint(fb.file, EntryAddress(iv.subFile, TileIndex(bbox, tm, iv, x, y)), EntryLength) ==
              if ok then Some(Parsed(entry, fb.Pos())) else None
  {
    var column := (x - tm.tileX(bbox[1], iv.baseZoom)) % U32;
    var row := (y - tm.tileY(bbox[2], iv.baseZoom)) % U32;
    var lookup := (row * (iv.nTilesX % U32) + column) % U32;
    fb.Seek((iv.subFile + (lookup * 5) % U32) % U64);
    ok, entry := fb.GetUint(EntryLength);
  }

  /**
   * Lines 339-375: allocate the way list from the arena, decode ways[12]
   * ways into it and close the file. A NULL list is where the code would
   * write through NULL.
   */
  method LoadWays(fb: FileBuffer, arena: Arena, declared: nat, wayPropSize: nat, getWay: nat -> WayDecode)
    returns (outcome: LoadOutcome, slots: array<Way>)
    requires arena.Valid()
    modifies arena, fb`isOpen
    ensures arena.Valid() && arena.size == old(arena.size)
    ensures outcome == if ListSize(wayPropSize, declared) > old(arena.size - arena.current) then ArenaOverflow
                       else Loaded(Kept(Calls(getWay, declared)), declared)
    ensures outcome.ArenaOverflow? ==> arena.current == old(arena.current) && arena.blocks == old(arena.blocks)
    ensures outcome.Loaded? ==>
              !fb.isOpen && fresh(slots) && |outcome.ways| <= slots.Length &&
              slots[..] == outcome.ways + slots[|outcome.ways|..] &&
              arena.current == old(arena.current) + ListSize(wayPropSize, declared) &&
              arena.blocks == old(arena.blocks) + [Region(old(arena.current), ListSize(wayPropSize, declared))]
  {
    var list := arena.Malloc(ListSize(wayPropSize, declared));
    slots := new Way[declared];
    if list.None? {
      return ArenaOverflow, slots;
    }
    var count := DecodeWays(getWay, declared, slots);
    fb.Close();
    outcome := Loaded(slots[..count], declared);
    assert slots[..] == slots[..count] + slots[count..];
  }

  /**
   * Lines 289-375: everything after the header. On water the file is
   * closed and nothing more is read or allocated.
   */
  method LoadTile(fb: FileBuffer, arena: Arena, h: Header, tm: TileMath, x: nat, y: nat, z: nat,
                  wayPropSize: nat, getWay: nat -> WayDecode, ghost file: seq<Byte>, ghost free: int)
    returns (outcome: LoadOutcome, slots: array<Way>)
    requires fb.Ready() && arena.Valid() && |h.fixed.boundingBox| == 4
    requires file == fb.file && free == arena.size - arena.current
    modifies fb`filePos, fb`bufferPos, fb`bytesRead, fb.buffer, fb`isOpen, arena
    ensures arena.Valid() && arena.size == old(arena.size)
    ensures outcome == TileSpec(file, h, tm, x, y, z, free, wayPropSize, getWay)
    ensures !outcome.Loaded? ==> arena.current == old(arena.current) && arena.blocks == old(arena.blocks)
    ensures outcome.Water? ==> !fb.isOpen
    ensures outcome.Loaded? ==>
              !fb.isOpen && |outcome.ways| <= slots.Length &&
              slots[..] == outcome.ways + slots[|outcome.ways|..] &&
              arena.current == old(arena.current) + ListSize(wayPropSize, outcome.declared) &&
              arena.blocks == old(arena.blocks) + [Region(old(arena.current), ListSize(wayPropSize, outcome.declared))]
  {
    slots := new Way[0];
    var zds := ScanIntervals(h.zoomIntervals, z);
    if zds == |h.zoomIntervals| {
      return NoInterval, slots;
    }
    var iv := h.zoomIntervals[zds];
    var ok, entry := ReadEntry(fb, h.fixed.boundingBox, tm, iv, x, y);
    if !ok {
      return ShortRead, slots;
    }
    var offset := entry % WaterBit;
    if (entry / WaterBit) % 2 == 1 {
      fb.Close();
      return Water, slots;
    }
    if !FitsSlots(iv) {
      return ZoomTableOverflow, slots;
    }
    var pois, ways, firstWayAddr;
    ok, pois, ways, firstWayAddr := ReadTileHeader(fb, iv, offset);
    if !ok {
      return ShortRead, slots;
    }
    ghost var th := ParseTileHeader(file, TileStart(iv, offset), iv).value;
    assert ways[DrawZoom] == WaysToDraw(th.value.counts, iv);
    outcome, slots := LoadWays(fb, arena, ways[DrawZoom], wayPropSize, getWay);
  }

  /** LoadSpec of a file that opens and starts with the magic but whose header runs off its end. */
  lemma LoadSpecShortHeader(file: seq<Byte>, tm: TileMath, x: nat, y: nat, z: nat,
                            free: int, wayPropSize: nat, getWay: nat -> WayDecode)
    requires HasMagic(file) && ParseHeader(file, tm).None?
    ensures LoadSpec(Some(file), tm, x, y, z, free, wayPropSize, getWay) == ShortRead
  {
  }

  /** LoadSpec of a file that opens and starts with the magic: the header decides what follows. */
  lemma LoadSpecAfterHeader(file: seq<Byte>, tm: TileMath, x: nat, y: nat, z: nat,
                            free: int, wayPropSize: nat, getWay: nat -> WayDecode, h: Header, q: nat)
    requires HasMagic(file) && ParseHeader(file, tm) == Some(Parsed(h, q))
    ensures LoadSpec(Some(file), tm, x, y, z, free, wayPropSize, getWay) ==
            TileSpec(file, h, tm, x, y, z, free, wayPropSize, getWay)
  {
  }

  /**
   * Lines 175-375: step over the magic, read the header, then look the tile
   * up and load it. The window holds the file from its start.
   */
  method LoadAfterMagic(fb: FileBuffer, arena: Arena, tm: TileMath, x: nat, y: nat, z: nat,
                        wayPropSize: nat, getWay: nat -> WayDecode, ghost f: Option<seq<Byte>>, ghost free: int)
    returns (outcome: LoadOutcome, slots: array<Way>)
    requires fb.Ready() && fb.WindowStart() == 0 && fb.bufferPos == 0 && 20 <= fb.bytesRead
    requires f == Some(fb.file) && HasMagic(fb.file) && arena.Valid() && free == arena.size - arena.current
    modifies fb`filePos, fb`bufferPos, fb`bytesRead, fb.buffer, fb`isOpen, arena
    ensures arena.Valid() && arena.size == old(arena.size)
    ensures outcome == LoadSpec(f, tm, x, y, z, free, wayPropSize, getWay)
    ensures !outcome.Loaded? ==> arena.current == old(arena.current) && arena.blocks == old(arena.blocks)
    ensures outcome.Water? ==> !fb.isOpen
    ensures outcome.Loaded? ==>
              !fb.isOpen && |outcome.ways| <= slots.Length &&
              slots[..] == outcome.ways + slots[|outcome.ways|..] &&
              arena.current == old(arena.current) + ListSize(wayPropSize, outcome.declared) &&
              arena.blocks == old(arena.blocks) + [Region(old(arena.current), ListSize(wayPropSize, outcome.declared))]
  {
    ghost var file := fb.file;
    fb.bufferPos := fb.bufferPos + 20;
    var ok, h := ReadHeader(fb, tm);
    if !ok {
      LoadSpecShortHeader(file, tm, x, y, z, free, wayPropSize, getWay);
      return ShortRead, new Way[0];
    }
    LoadSpecAfterHeader(file, tm, x, y, z, free, wayPropSize, getWay, h, fb.Pos());
    outcome, slots := LoadTile(fb, arena, h, tm, x, y, z, wayPropSize, getWay, file, free);
  }

  /**
   * Lines 160-170: open the file, fill the window from its start and compare
   * the window's first 20 bytes with the magic.
   */
  method OpenMap(f: Option<seq<Byte>>, capacity: nat) returns (fb: FileBuffer, magic: bool)
    requires MinBufferSize <= capacity < U16
    ensures fresh(fb) && fresh(fb.buffer) && fb.Valid()
    ensures fb.isOpen <==> f.Some?
    ensures fb.bufferPos == 0 && (f.Some? ==> fb.file == f.value && fb.WindowStart() == 0)
    ensures magic <==> f.Some? && HasMagic(f.value)
    ensures magic ==> 20 <= fb.bytesRead
  {
    fb := new FileBuffer(capacity);
    var rc := fb.Init(f);
    if rc == 1 {
      return fb, false;
    }
    WindowMagic(fb.buffer[..], fb.file, fb.bytesRead);
    magic := fb.buffer[..20] == Magic;
  }

  /**
   * load_map: `f` is the file's contents, or None when fopen fails;
   * `capacity` is FILE_READ_BUFFER_SIZE. The cursor is a fresh local whose
   * window starts zero-filled. A file without the magic is left open.
   */
  method LoadMap(arena: Arena, f: Option<seq<Byte>>, capacity: nat, tm: TileMath, x: nat, y: nat, z: nat,
                 wayPropSize: nat, getWay: nat -> WayDecode)
    returns (outcome: LoadOutcome, fb: FileBuffer, slots: array<Way>)
    requires arena.Valid() && MinBufferSize <= capacity < U16
    modifies arena
    ensures arena.Valid() && arena.size == old(arena.size)
    ensures fresh(fb)
    ensures outcome == LoadSpec(f, tm, x, y, z, old(arena.size - arena.current), wayPropSize, getWay)
    ensures !outcome.Loaded? ==> arena.current == old(arena.current) && arena.blocks == old(arena.blocks)
    ensures outcome.NotOpened? || outcome.Water? ==> !fb.isOpen
    ensures outcome.BadMagic? ==> fb.isOpen && fb.bufferPos == 0
    ensures outcome.Loaded? ==>
              !fb.isOpen && |outcome.ways| <= slots.Length &&
              slots[..] == outcome.ways + slots[|outcome.ways|..] &&
              arena.current == old(arena.current) + ListSize(wayPropSize, outcome.declared) &&
              arena.blocks == old(arena.blocks) + [Region(old(arena.current), ListSize(wayPropSize, outcome.declared))]
  {
    slots := new Way[0];
    var magic;
    fb, magic := OpenMap(f, capacity);
    if !fb.isOpen {
      return NotOpened, fb, slots;
    }
    if !magic {
      return BadMagic, fb, slots;
    }
    outcome, slots := LoadAfterMagic(fb, arena, tm, x, y, z, wayPropSize, getWay, f, old(arena.size - arena.current));
  }
}
