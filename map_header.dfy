/**
 * The file header of a Mapsforge binary map, as load_map in
 * components/mapmini/src/map.c reads it: the magic, the fixed fields, the
 * optional fields switched on by the flag byte, the POI and way tag-name
 * tables and the zoom-interval table.
 *
 * Each part is a pure parser over the file bytes (the reference definition)
 * and a method that reads the same part through the buffered cursor and is
 * proved to agree with it.
 */
module MapHeader {
  import opened Wrappers
  import opened Wire
  import opened FileIo

  /** MAPSFORGE_MAGIC_STRING, "mapsforge binary OSM", in ASCII. */
  const Magic: seq<Byte> :=
    [109, 97, 112, 115, 102, 111, 114, 103, 101, 32, 98, 105, 110, 97, 114, 121, 32, 79, 83, 77]

  /** The file starts with the 20-byte magic: memcmp finds no differing byte among the first 20. */
  function HasMagic(f: seq<Byte>): (b: bool)
    ensures b <==> |f| >= 20 && forall i :: 0 <= i < 20 ==> f[i] == Magic[i]
  {
    |f| >= 20 && f[..20] == Magic
  }

  /** Bits of the flag byte. */
  const StartPositionBit: bv8 := 0x40
  const StartZoomBit: bv8 := 0x20
  const LanguageBit: bv8 := 0x10
  const CommentBit: bv8 := 0x08
  const CreatedByBit: bv8 := 0x04

  predicate HasFlag(flags: Byte, bit: bv8)
  {
    (flags as bv8) & bit != 0
  }

  datatype FixedFields = FixedFields(
    headerSize: nat,
    fileVersion: nat,
    fileSize: nat,
    fileCreation: int,
    /** Micro-degrees: min latitude, min longitude, max latitude, max longitude. */
    boundingBox: seq<int>,
    tileSize: nat,
    projection: seq<Byte>,
    flags: Byte)

  datatype OptionalFields = OptionalFields(
    startPosition: seq<nat>,
    startZoom: nat,
    language: seq<Byte>,
    comment: seq<Byte>,
    createdBy: seq<Byte>)

  /** One zoom_conf entry; the tile counts are derived, not read. */
  datatype ZoomInterval = ZoomInterval(
    baseZoom: nat,
    minZoom: nat,
    maxZoom: nat,
    subFile: nat,
    subFileSize: nat,
    nTilesX: int,
    nTilesY: int)

  datatype Header = Header(
    fixed: FixedFields,
    optional: OptionalFields,
    poiTags: seq<seq<Byte>>,
    wayTags: seq<seq<Byte>>,
    zoomIntervals: seq<ZoomInterval>)

  /**
   * The floating-point tile math (long2tilex, lat2tiley), taken as given:
   * the tile column of a longitude and the tile row of a latitude, both in
   * micro-degrees, at a zoom level.
   */
  datatype TileMath = TileMath(tileX: (int, nat) -> int, tileY: (int, nat) -> int)

  /** Bytes of header size, file version, file size and creation time. */
  const SizesLength: nat := 4 + 4 + 8 + 8

  /** Bytes of the four bounding-box coordinates and the tile size. */
  const BoxLength: nat := 4 * 4 + 2

  /** Bytes of the fixed fields before the projection string. */
  const FixedHeadLength: nat := SizesLength + BoxLength

  /** Bytes taken by the fixed fields around a projection string of the given length. */
  function FixedLength(projection: seq<Byte>): nat
  {
    FixedHeadLength + 1 + |projection| + 1
  }

  /** Header size, file version, file size (unsigned) and creation time (signed), big-endian. */
  function SizesOf(b: seq<Byte>): (r: (nat, nat, nat, int))
    requires |b| == SizesLength
    ensures r.0 < U32 && r.1 < U32 && r.2 < U64 && -(U64 as int) <= 2 * r.3 < U64
    ensures EncodeBigEndian(r.0, 4) + EncodeBigEndian(r.1, 4) + EncodeBigEndian(r.2, 8) + EncodeSigned(r.3, 8) == b
  {
    assert Pow256(4) == U32 && Pow256(8) == U64;
    BigEndianEncodes(b[0..4]);
    BigEndianEncodes(b[4..8]);
    BigEndianEncodes(b[8..16]);
    SignedEncodes(b[16..24]);
    assert b == b[0..4] + b[4..8] + b[8..16] + b[16..24];
    (BigEndian(b[0..4]), BigEndian(b[4..8]), BigEndian(b[8..16]), Signed(BigEndian(b[16..24]), 8))
  }

  /** One signed 32-bit big-endian coordinate. */
  function Coordinate(b: seq<Byte>): (c: int)
    requires |b| == 4
    ensures -(U32 as int) <= 2 * c < U32
    ensures EncodeSigned(c, 4) == b
  {
    assert Pow256(4) == U32;
    SignedEncodes(b);
    Signed(BigEndian(b), 4)
  }

  /** Four signed 32-bit coordinates, then the unsigned 16-bit tile size. */
  function BoxOf(b: seq<Byte>): (r: (seq<int>, nat))
    requires |b| == BoxLength
    ensures |r.0| == 4 && forall i :: 0 <= i < 4 ==> -(U32 as int) <= 2 * r.0[i] < U32
    ensures r.1 < U16
    ensures EncodeSigned(r.0[0], 4) + EncodeSigned(r.0[1], 4) + EncodeSigned(r.0[2], 4) +
            EncodeSigned(r.0[3], 4) + EncodeBigEndian(r.1, 2) == b
  {
    assert Pow256(2) == U16;
    BigEndianEncodes(b[16..18]);
    var box := [Coordinate(b[0..4]), Coordinate(b[4..8]), Coordinate(b[8..12]), Coordinate(b[12..16])];
    assert b == b[0..4] + b[4..8] + b[8..12] + b[12..16] + b[16..18];
    (box, BigEndian(b[16..18]))
  }

  /**
   * The fixed fields, given the bytes before the projection, the projection
   * and the flags: big-endian u32, u32 and u64 at 0, 4 and 8, the signed
   * creation time at 16, the four signed coordinates at 24, 28, 32 and 36,
   * and the u16 tile size at 40.
   */
  function FixedFromHead(head: seq<Byte>, projection: seq<Byte>, flags: Byte): (h: FixedFields)
    requires |head| == FixedHeadLength
    ensures h.headerSize == BigEndian(head[0..4]) && h.fileVersion == BigEndian(head[4..8])
    ensures h.fileSize == BigEndian(head[8..16]) && h.fileCreation == Signed(BigEndian(head[16..24]), 8)
    ensures |h.boundingBox| == 4
    ensures h.boundingBox[0] == Signed(BigEndian(head[24..28]), 4) &&
            h.boundingBox[1] == Signed(BigEndian(head[28..32]), 4) &&
            h.boundingBox[2] == Signed(BigEndian(head[32..36]), 4) &&
            h.boundingBox[3] == Signed(BigEndian(head[36..40]), 4)
    ensures h.tileSize == BigEndian(head[40..42]) && h.projection == projection && h.flags == flags
  {
    var sizes, box := head[..SizesLength], head[SizesLength..];
    assert sizes[0..4] == head[0..4] && sizes[4..8] == head[4..8];
    assert sizes[8..16] == head[8..16] && sizes[16..24] == head[16..24];
    assert box[0..4] == head[24..28] && box[4..8] == head[28..32];
    assert box[8..12] == head[32..36] && box[12..16] == head[36..40] && box[16..18] == head[40..42];
    var (headerSize, fileVersion, fileSize, creation) := SizesOf(sizes);
    var (bbox, tileSize) := BoxOf(box);
    FixedFields(headerSize, fileVersion, fileSize, creation, bbox, tileSize, projection, flags)
  }

  /** The fixed fields: sizes, creation time, bounding box, tile size, projection and flags. */
  function ParseFixed(f: seq<Byte>, p: nat): (r: Option<Parsed<FixedFields>>)
    ensures r.Some? ==> r.value.next == p + FixedLength(r.value.value.projection)
    ensures r.Some? ==> |r.value.value.boundingBox| == 4
  {
    var head :- Bytes(f, p, FixedHeadLength);
    var projection :- Str(f, head.next);
    var flags :- Uint(f, projection.next, 1);
    assert Pow256(1) == 256;
    Some(Parsed(FixedFromHead(head.value, projection.value, flags.value), flags.next))
  }

  /** An n-byte unsigned field that is present only when `present` holds; 0 otherwise. */
  function OptUint(f: seq<Byte>, p: nat, n: nat, present: bool): Option<Parsed<nat>>
  {
    if present then Uint(f, p, n) else Some(Parsed(0, p))
  }

  /** A length-prefixed string that is present only when `present` holds; empty otherwise. */
  function OptStr(f: seq<Byte>, p: nat, present: bool): Option<Parsed<seq<Byte>>>
  {
    if present then Str(f, p) else Some(Parsed([], p))
  }

  /** Bytes the optional fields take, given the flags and the strings read. */
  function OptionalLength(flags: Byte, o: OptionalFields): nat
  {
    (if HasFlag(flags, StartPositionBit) then 8 else 0) +
    (if HasFlag(flags, StartZoomBit) then 1 else 0) +
    (if HasFlag(flags, LanguageBit) then 1 + |o.language| else 0) +
    (if HasFlag(flags, CommentBit) then 1 + |o.comment| else 0) +
    (if HasFlag(flags, CreatedByBit) then 1 + |o.createdBy| else 0)
  }

  /** The start position (bit 0x40, two u32) and the start zoom (bit 0x20, one u8). */
  function ParseStart(f: seq<Byte>, p: nat, flags: Byte): (r: Option<Parsed<(seq<nat>, nat)>>)
    ensures r.Some? ==> |r.value.value.0| == 2
    ensures r.Some? ==> r.value.next == p + (if HasFlag(flags, StartPositionBit) then 8 else 0) +
                                          (if HasFlag(flags, StartZoomBit) then 1 else 0)
    ensures r.Some? && !HasFlag(flags, StartPositionBit) ==> r.value.value.0 == [0, 0]
    ensures r.Some? && !HasFlag(flags, StartZoomBit) ==> r.value.value.1 == 0
  {
    var lat :- OptUint(f, p, 4, HasFlag(flags, StartPositionBit));
    var lon :- OptUint(f, lat.next, 4, HasFlag(flags, StartPositionBit));
    var zoom :- OptUint(f, lon.next, 1, HasFlag(flags, StartZoomBit));
    Some(Parsed(([lat.value, lon.value], zoom.value), zoom.next))
  }

  /** Language (bit 0x10), comment (bit 0x08) and created-by (bit 0x04) strings. */
  function ParseTexts(f: seq<Byte>, p: nat, flags: Byte): (r: Option<Parsed<(seq<Byte>, seq<Byte>, seq<Byte>)>>)
    ensures r.Some? ==>
              var (language, comment, createdBy) := r.value.value;
              r.value.next == p + (if HasFlag(flags, LanguageBit) then 1 + |language| else 0) +
                                  (if HasFlag(flags, CommentBit) then 1 + |comment| else 0) +
                                  (if HasFlag(flags, CreatedByBit) then 1 + |createdBy| else 0)
    ensures r.Some? && !HasFlag(flags, LanguageBit) ==> r.value.value.0 == []
    ensures r.Some? && !HasFlag(flags, CommentBit) ==> r.value.value.1 == []
    ensures r.Some? && !HasFlag(flags, CreatedByBit) ==> r.value.value.2 == []
  {
    var language :- OptStr(f, p, HasFlag(flags, LanguageBit));
    var comment :- OptStr(f, language.next, HasFlag(flags, CommentBit));
    var createdBy :- OptStr(f, comment.next, HasFlag(flags, CreatedByBit));
    Some(Parsed((language.value, comment.value, createdBy.value), createdBy.next))
  }

  /**
   * The optional fields: each is consumed only when its flag bit is set, and
   * otherwise defaults to 0 or the empty string.
   */
  function ParseOptional(f: seq<Byte>, p: nat, flags: Byte): (r: Option<Parsed<OptionalFields>>)
    ensures r.Some? ==> r.value.next == p + OptionalLength(flags, r.value.value)
    ensures r.Some? && !HasFlag(flags, StartPositionBit) ==> r.value.value.startPosition == [0, 0]
    ensures r.Some? && !HasFlag(flags, StartZoomBit) ==> r.value.value.startZoom == 0
    ensures r.Some? && !HasFlag(flags, LanguageBit) ==> r.value.value.language == []
    ensures r.Some? && !HasFlag(flags, CommentBit) ==> r.value.value.comment == []
    ensures r.Some? && !HasFlag(flags, CreatedByBit) ==> r.value.value.createdBy == []
  {
    var start :- ParseStart(f, p, flags);
    var texts :- ParseTexts(f, start.next, flags);
    Some(Parsed(
      OptionalFields(start.value.0, start.value.1, texts.value.0, texts.value.1, texts.value.2),
      texts.next))
  }

  /** Total length of a list of names. */
  function TotalLength(names: seq<seq<Byte>>): nat
  {
    if names == [] then 0 else TotalLength(names[..|names| - 1]) + |names[|names| - 1]|
  }

  /** The first k length-prefixed names of a tag-name table starting at p. */
  function Names(f: seq<Byte>, p: nat, k: nat): (r: Option<Parsed<seq<seq<Byte>>>>)
    ensures r.Some? ==> |r.value.value| == k
    ensures r.Some? ==> r.value.next == p + k + TotalLength(r.value.value)
    decreases k
  {
    if k == 0 then Some(Parsed([], p))
    else
      var init :- Names(f, p, k - 1);
      var name :- Str(f, init.next);
      assert (init.value + [name.value])[..k - 1] == init.value;
      Some(Parsed(init.value + [name.value], name.next))
  }

  /** Once a table cannot be read up to entry k, no longer prefix of it can be read. */
  lemma {:induction false} NamesFailurePersists(f: seq<Byte>, p: nat, k: nat, k': nat)
    requires k <= k' && Names(f, p, k).None?
    ensures Names(f, p, k').None?
    decreases k'
  {
    if k < k' {
      NamesFailurePersists(f, p, k, k' - 1);
      NamesFailureStep(f, p, k');
    }
  }

  /** A table whose first k - 1 entries cannot be read cannot be read up to entry k. */
  lemma NamesFailureStep(f: seq<Byte>, p: nat, k: nat)
    requires k > 0 && Names(f, p, k - 1).None?
    ensures Names(f, p, k).None?
  {
  }

  /** Bytes of one zoom-interval record: three u8 zoom levels and two u64 sub-file fields. */
  const IntervalRecordLength: nat := 19

  /** n_tiles_x of an interval: the column span of the bounding box at its base zoom, plus one. */
  function TilesAcross(bbox: seq<int>, tm: TileMath, baseZoom: nat): int
    requires |bbox| == 4
  {
    tm.tileX(bbox[3], baseZoom) - tm.tileX(bbox[1], baseZoom) + 1
  }

  /** n_tiles_y of an interval: the row span of the bounding box at its base zoom, plus one. */
  function TilesDown(bbox: seq<int>, tm: TileMath, baseZoom: nat): int
    requires |bbox| == 4
  {
    tm.tileY(bbox[0], baseZoom) - tm.tileY(bbox[2], baseZoom) + 1
  }

  /**
   * The fields of a zoom-interval record: base, minimal and maximal zoom
   * (one byte each), then the sub-file start and size (eight bytes each);
   * the tile counts are derived from the bounding box.
   */
  function IntervalFields(rec: seq<Byte>, bbox: seq<int>, tm: TileMath): (iv: ZoomInterval)
    requires |rec| == IntervalRecordLength && |bbox| == 4
    ensures iv.baseZoom == rec[0] && iv.minZoom == rec[1] && iv.maxZoom == rec[2]
    ensures iv.subFile == BigEndian(rec[3..11]) && iv.subFileSize == BigEndian(rec[11..19])
    ensures iv.baseZoom < 256 && iv.minZoom < 256 && iv.maxZoom < 256
    ensures iv.nTilesX == TilesAcross(bbox, tm, iv.baseZoom) && iv.nTilesY == TilesDown(bbox, tm, iv.baseZoom)
  {
    ZoomInterval(rec[0], rec[1], rec[2], BigEndian(rec[3..11]), BigEndian(rec[11..19]),
                 TilesAcross(bbox, tm, rec[0]), TilesDown(bbox, tm, rec[0]))
  }

  /** One zoom-interval record at p. */
  function IntervalRecord(f: seq<Byte>, p: nat, bbox: seq<int>, tm: TileMath): (r: Option<Parsed<ZoomInterval>>)
    requires |bbox| == 4
    ensures r.Some? <==> p + IntervalRecordLength <= |f|
    ensures r.Some? ==> r.value.next == p + IntervalRecordLength
  {
    var rec :- Bytes(f, p, IntervalRecordLength);
    Some(Parsed(IntervalFields(rec.value, bbox, tm), rec.next))
  }

  /** The first k records of the zoom-interval table starting at p. */
  function Intervals(f: seq<Byte>, p: nat, k: nat, bbox: seq<int>, tm: TileMath): (r: Option<Parsed<seq<ZoomInterval>>>)
    requires |bbox| == 4
    ensures r.Some? ==> |r.value.value| == k && r.value.next == p + IntervalRecordLength * k
    decreases k
  {
    if k == 0 then Some(Parsed([], p))
    else
      var init :- Intervals(f, p, k - 1, bbox, tm);
      var iv :- IntervalRecord(f, init.next, bbox, tm);
      Some(Parsed(init.value + [iv.value], iv.next))
  }

  /** Every record of a zoom-interval table carries the tile counts derived from the bounding box. */
  lemma {:induction false} IntervalsDerived(f: seq<Byte>, p: nat, k: nat, bbox: seq<int>, tm: TileMath)
    requires |bbox| == 4 && Intervals(f, p, k, bbox, tm).Some?
    ensures forall i :: 0 <= i < k ==>
              var iv := Intervals(f, p, k, bbox, tm).value.value[i];
              iv.minZoom < 256 && iv.maxZoom < 256 &&
              iv.nTilesX == TilesAcross(bbox, tm, iv.baseZoom) && iv.nTilesY == TilesDown(bbox, tm, iv.baseZoom)
    decreases k
  {
    if k > 0 {
      IntervalsDerived(f, p, k - 1, bbox, tm);
    }
  }

  /** Extending a table read up to q by one record. */
  lemma IntervalsStep(f: seq<Byte>, p: nat, k: nat, bbox: seq<int>, tm: TileMath, q: nat)
    requires |bbox| == 4 && Intervals(f, p, k, bbox, tm).Some? && Intervals(f, p, k, bbox, tm).value.next == q
    ensures Intervals(f, p, k + 1, bbox, tm) ==
              match IntervalRecord(f, q, bbox, tm)
              case None => None
              case Some(iv) => Some(Parsed(Intervals(f, p, k, bbox, tm).value.value + [iv.value], iv.next))
  {
  }

  lemma IntervalsNoneStep(f: seq<Byte>, p: nat, k: nat, bbox: seq<int>, tm: TileMath)
    requires |bbox| == 4 && Intervals(f, p, k, bbox, tm).None?
    ensures Intervals(f, p, k + 1, bbox, tm).None?
  {
  }

  lemma {:induction false} IntervalsFailurePersists(f: seq<Byte>, p: nat, k: nat, k': nat, bbox: seq<int>, tm: TileMath)
    requires |bbox| == 4 && k <= k' && Intervals(f, p, k, bbox, tm).None?
    ensures Intervals(f, p, k', bbox, tm).None?
    decreases k'
  {
    if k < k' {
      IntervalsFailurePersists(f, p, k, k' - 1, bbox, tm);
      IntervalsNoneStep(f, p, k' - 1, bbox, tm);
    }
  }

  /** A tag-name table with its u16 count in front (the poi and the way tag tables). */
  function ParseTable(f: seq<Byte>, p: nat): (r: Option<Parsed<seq<seq<Byte>>>>)
    ensures r.Some? ==> |r.value.value| < U16 && p + 2 <= r.value.next
  {
    assert Pow256(2) == U16;
    var n :- Uint(f, p, 2);
    Names(f, n.next, n.value)
  }

  /** The zoom-interval table with its u8 count in front. */
  function ParseIntervalTable(f: seq<Byte>, p: nat, bbox: seq<int>, tm: TileMath): (r: Option<Parsed<seq<ZoomInterval>>>)
    requires |bbox| == 4
    ensures r.Some? ==> |r.value.value| < 256 && p + 1 <= r.value.next
  {
    assert Pow256(1) == 256;
    var n :- Uint(f, p, 1);
    Intervals(f, n.next, n.value, bbox, tm)
  }

  /** The header after the 20-byte magic: fixed fields, optional fields and the three tables. */
  function ParseHeader(f: seq<Byte>, tm: TileMath): (r: Option<Parsed<Header>>)
    ensures r.Some? ==> |r.value.value.fixed.boundingBox| == 4
    ensures r.Some? ==> |r.value.value.poiTags| < U16 && |r.value.value.wayTags| < U16 &&
                        |r.value.value.zoomIntervals| < 256
  {
    var fixed :- ParseFixed(f, 20);
    var optional :- ParseOptional(f, fixed.next, fixed.value.flags);
    var poi :- ParseTable(f, optional.next);
    var way :- ParseTable(f, poi.next);
    var intervals :- ParseIntervalTable(f, way.next, fixed.value.boundingBox, tm);
    Some(Parsed(Header(fixed.value, optional.value, poi.value, way.value, intervals.value), intervals.next))
  }

  /** Header size, file version, file size and creation time, read through the cursor. */
  method ReadSizes(fb: FileBuffer) returns (ok: bool, headerSize: nat, fileVersion: nat, fileSize: nat, creation: int)
    requires fb.Ready()
    modifies fb`filePos, fb`bufferPos, fb`bytesRead, fb.buffer
    ensures fb.Ready() && fb.file == old(fb.file)
    ensures ok <==> old(fb.Pos()) + SizesLength <= |fb.file|
    ensures ok ==> fb.Pos() == old(fb.Pos()) + SizesLength &&
                   (headerSize, fileVersion, fileSize, creation) == SizesOf(fb.file[old(fb.Pos())..fb.Pos()])
  {
    ghost var f, p := fb.file, fb.Pos();
    headerSize, fileVersion, fileSize, creation := 0, 0, 0, 0;
    ok, headerSize := fb.GetUint(4);
    if !ok { return; }
    ghost var q1 := fb.Pos();
    ok, fileVersion := fb.GetUint(4);
    if !ok { return; }
    ghost var q2 := fb.Pos();
    ok, fileSize := fb.GetUint(8);
    if !ok { return; }
    ghost var q3 := fb.Pos();
    ok, creation := fb.GetInt(8);
    if !ok { return; }
    SizesFromFields(f, p, q1, q2, q3, fb.Pos(), headerSize, fileVersion, fileSize, creation);
  }

  /** The sizes read field by field are the sizes block read at once. */
  lemma SizesFromFields(f: seq<Byte>, p: nat, q1: nat, q2: nat, q3: nat, q4: nat,
                        headerSize: nat, fileVersion: nat, fileSize: nat, creation: int)
    requires Uint(f, p, 4) == Some(Parsed(headerSize, q1))
    requires Uint(f, q1, 4) == Some(Parsed(fileVersion, q2))
    requires Uint(f, q2, 8) == Some(Parsed(fileSize, q3))
    requires Int(f, q3, 8) == Some(Parsed(creation, q4))
    ensures q4 == p + SizesLength <= |f|
    ensures (headerSize, fileVersion, fileSize, creation) == SizesOf(f[p..q4])
  {
    assert q4 == p + SizesLength;
    var b := f[p..q4];
    UintInBlock(f, p, SizesLength, 0, 4);
    UintInBlock(f, p, SizesLength, 4, 4);
    UintInBlock(f, p, SizesLength, 8, 8);
    IntInBlock(f, p, SizesLength, 16, 8);
    assert headerSize == BigEndian(b[0..4]) && fileVersion == BigEndian(b[4..8]);
    assert fileSize == BigEndian(b[8..16]) && creation == Signed(BigEndian(b[16..24]), 8);
  }

  /** The bounding box and the tile size, read through the cursor. */
  method ReadBox(fb: FileBuffer) returns (ok: bool, bbox: seq<int>, tileSize: nat)
    requires fb.Ready()
    modifies fb`filePos, fb`bufferPos, fb`bytesRead, fb.buffer
    ensures fb.Ready() && fb.file == old(fb.file)
    ensures ok <==> old(fb.Pos()) + BoxLength <= |fb.file|
    ensures ok ==> fb.Pos() == old(fb.Pos()) + BoxLength && (bbox, tileSize) == BoxOf(fb.file[old(fb.Pos())..fb.Pos()])
  {
    ghost var f, p := fb.file, fb.Pos();
    bbox, tileSize := [], 0;
    var b0, b1, b2, b3;
    ok, b0 := fb.GetInt(4);
    if !ok { return; }
    ghost var q1 := fb.Pos();
    ok, b1 := fb.GetInt(4);
    if !ok { return; }
    ghost var q2 := fb.Pos();
    ok, b2 := fb.GetInt(4);
    if !ok { return; }
    ghost var q3 := fb.Pos();
    ok, b3 := fb.GetInt(4);
    if !ok { return; }
    ghost var q4 := fb.Pos();
    ok, tileSize := fb.GetUint(2);
    if !ok { return; }
    BoxFromFields(f, p, q1, q2, q3, q4, fb.Pos(), b0, b1, b2, b3, tileSize);
    bbox := [b0, b1, b2, b3];
  }

  /** The box read field by field is the box block read at once. */
  lemma BoxFromFields(f: seq<Byte>, p: nat, q1: nat, q2: nat, q3: nat, q4: nat, q5: nat,
                      b0: int, b1: int, b2: int, b3: int, tileSize: nat)
    requires Int(f, p, 4) == Some(Parsed(b0, q1))
    requires Int(f, q1, 4) == Some(Parsed(b1, q2))
    requires Int(f, q2, 4) == Some(Parsed(b2, q3))
    requires Int(f, q3, 4) == Some(Parsed(b3, q4))
    requires Uint(f, q4, 2) == Some(Parsed(tileSize, q5))
    ensures q5 == p + BoxLength <= |f|
    ensures ([b0, b1, b2, b3], tileSize) == BoxOf(f[p..q5])
  {
    assert q5 == p + BoxLength;
    var b := f[p..q5];
    IntInBlock(f, p, BoxLength, 0, 4);
    IntInBlock(f, p, BoxLength, 4, 4);
    IntInBlock(f, p, BoxLength, 8, 4);
    IntInBlock(f, p, BoxLength, 12, 4);
    UintInBlock(f, p, BoxLength, 16, 2);
    assert b0 == Coordinate(b[0..4]) && b1 == Coordinate(b[4..8]);
    assert b2 == Coordinate(b[8..12]) && b3 == Coordinate(b[12..16]);
    assert tileSize == BigEndian(b[16..18]);
  }

  /** The bytes before the projection are the sizes block followed by the box block. */
  lemma HeadSplit(f: seq<Byte>, p: nat)
    requires p + FixedHeadLength <= |f|
    ensures f[p..p + FixedHeadLength][..SizesLength] == f[p..p + SizesLength]
    ensures f[p..p + FixedHeadLength][SizesLength..] == f[p + SizesLength..p + FixedHeadLength]
  {
  }

  /** The fixed fields, read through the cursor. */
  method ReadFixed(fb: FileBuffer) returns (ok: bool, h: FixedFields)
    requires fb.Ready()
    modifies fb`filePos, fb`bufferPos, fb`bytesRead, fb.buffer
    ensures fb.Ready() && fb.file == old(fb.file)
    ensures ParseFixed(fb.file, old(fb.Pos())) == if ok then Some(Parsed(h, fb.Pos())) else None
  {
    ghost var f, p := fb.file, fb.Pos();
    h := FixedFields(0, 0, 0, 0, [], 0, [], 0);
    var headerSize, fileVersion, fileSize, creation, bbox, tileSize, projection, flags;
    ok, headerSize, fileVersion, fileSize, creation := ReadSizes(fb);
    if !ok { HeadShort(f, p); return; }
    ok, bbox, tileSize := ReadBox(fb);
    if !ok { HeadShort(f, p); return; }
    ghost var q1 := fb.Pos();
    HeadSplit(f, p);
    assert Bytes(f, p, FixedHeadLength) == Some(Parsed(f[p..q1], q1));
    ok, projection := fb.GetString();
    if !ok { return; }
    ghost var q2 := fb.Pos();
    ok, flags := fb.GetUint(1);
    if !ok { return; }
    assert Pow256(1) == 256;
    h := FixedFields(headerSize, fileVersion, fileSize, creation, bbox, tileSize, projection, flags);
    assert FixedFromHead(f[p..q1], projection, flags) == h;
    ParseFixedFromParts(f, p, f[p..q1], projection, flags, q1, q2, fb.Pos());
  }

  /** Too few bytes for the block before the projection: the fixed fields do not parse. */
  lemma HeadShort(f: seq<Byte>, p: nat)
    requires p + FixedHeadLength > |f|
    ensures ParseFixed(f, p).None?
  {
  }

  /** ParseFixed read step by step: the head bytes, the projection and the flags byte. */
  lemma ParseFixedFromParts(f: seq<Byte>, p: nat, head: seq<Byte>, projection: seq<Byte>, flags: Byte,
                            q1: nat, q2: nat, q3: nat)
    requires Bytes(f, p, FixedHeadLength) == Some(Parsed(head, q1))
    requires Str(f, q1) == Some(Parsed(projection, q2))
    requires Uint(f, q2, 1) == Some(Parsed(flags as nat, q3))
    ensures ParseFixed(f, p) == Some(Parsed(FixedFromHead(head, projection, flags), q3))
  {
  }

  /** An unsigned field read only when its flag is set. */
  method ReadOptUint(fb: FileBuffer, n: nat, present: bool) returns (ok: bool, v: nat)
    requires fb.Ready() && n <= fb.capacity
    modifies fb`filePos, fb`bufferPos, fb`bytesRead, fb.buffer
    ensures fb.Ready() && fb.file == old(fb.file)
    ensures OptUint(fb.file, old(fb.Pos()), n, present) == if ok then Some(Parsed(v, fb.Pos())) else None
  {
    if !present {
      return true, 0;
    }
    ok, v := fb.GetUint(n);
  }

  /** A length-prefixed string read only when its flag is set. */
  method ReadOptStr(fb: FileBuffer, present: bool) returns (ok: bool, s: seq<Byte>)
    requires fb.Ready()
    modifies fb`filePos, fb`bufferPos, fb`bytesRead, fb.buffer
    ensures fb.Ready() && fb.file == old(fb.file)
    ensures OptStr(fb.file, old(fb.Pos()), present) == if ok then Some(Parsed(s, fb.Pos())) else None
  {
    if !present {
      return true, [];
    }
    ok, s := fb.GetString();
  }

  /** The start position and start zoom, read through the cursor. */
  method ReadStart(fb: FileBuffer, flags: Byte) returns (ok: bool, position: seq<nat>, zoom: nat)
    requires fb.Ready()
    modifies fb`filePos, fb`bufferPos, fb`bytesRead, fb.buffer
    ensures fb.Ready() && fb.file == old(fb.file)
    ensures ParseStart(fb.file, old(fb.Pos()), flags) == if ok then Some(Parsed((position, zoom), fb.Pos())) else None
  {
    position, zoom := [], 0;
    var lat, lon;
    ok, lat := ReadOptUint(fb, 4, HasFlag(flags, StartPositionBit));
    if !ok { return; }
    ok, lon := ReadOptUint(fb, 4, HasFlag(flags, StartPositionBit));
    if !ok { return; }
    ok, zoom := ReadOptUint(fb, 1, HasFlag(flags, StartZoomBit));
    if !ok { return; }
    position := [lat, lon];
  }

  /** The language, comment and created-by strings, read through the cursor. */
  method ReadTexts(fb: FileBuffer, flags: Byte) returns (ok: bool, language: seq<Byte>, comment: seq<Byte>, createdBy: seq<Byte>)
    requires fb.Ready()
    modifies fb`filePos, fb`bufferPos, fb`bytesRead, fb.buffer
    ensures fb.Ready() && fb.file == old(fb.file)
    ensures ParseTexts(fb.file, old(fb.Pos()), flags) ==
              if ok then Some(Parsed((language, comment, createdBy), fb.Pos())) else None
  {
    comment, createdBy := [], [];
    ok, language := ReadOptStr(fb, HasFlag(flags, LanguageBit));
    if !ok { return; }
    ok, comment := ReadOptStr(fb, HasFlag(flags, CommentBit));
    if !ok { return; }
    ok, createdBy := ReadOptStr(fb, HasFlag(flags, CreatedByBit));
  }

  /** The optional fields, read through the cursor. */
  method ReadOptional(fb: FileBuffer, flags: Byte) returns (ok: bool, o: OptionalFields)
    requires fb.Ready()
    modifies fb`filePos, fb`bufferPos, fb`bytesRead, fb.buffer
    ensures fb.Ready() && fb.file == old(fb.file)
    ensures ParseOptional(fb.file, old(fb.Pos()), flags) == if ok then Some(Parsed(o, fb.Pos())) else None
  {
    o := OptionalFields([], 0, [], [], []);
    var position, zoom, language, comment, createdBy;
    ok, position, zoom := ReadStart(fb, flags);
    if !ok { return; }
    ok, language, comment, createdBy := ReadTexts(fb, flags);
    if !ok { return; }
    o := OptionalFields(position, zoom, language, comment, createdBy);
  }

  /** A tag-name table of `count` names, read through the cursor (the poi_id / way_id loops). */
  method ReadNames(fb: FileBuffer, count: nat) returns (ok: bool, names: seq<seq<Byte>>)
    requires fb.Ready()
    modifies fb`filePos, fb`bufferPos, fb`bytesRead, fb.buffer
    ensures fb.Ready() && fb.file == old(fb.file)
    ensures Names(fb.file, old(fb.Pos()), count) == if ok then Some(Parsed(names, fb.Pos())) else None
  {
    ghost var f, p := fb.file, fb.Pos();
    names := [];
    for i := 0 to count
      invariant fb.Ready() && fb.file == f
      invariant Names(f, p, i) == Some(Parsed(names, fb.Pos()))
    {
      var got, name := fb.GetString();
      if !got {
        NamesFailurePersists(f, p, i + 1, count);
        return false, [];
      }
      names := names + [name];
    }
    ok := true;
  }

  /** A record read field by field is the record read as one block. */
  lemma IntervalFromFields(f: seq<Byte>, p: nat, bbox: seq<int>, tm: TileMath,
                           base: nat, min: nat, max: nat, subFile: nat, subFileSize: nat,
                           q1: nat, q2: nat, q3: nat, q4: nat, q5: nat)
    requires |bbox| == 4
    requires Uint(f, p, 1) == Some(Parsed(base, q1))
    requires Uint(f, q1, 1) == Some(Parsed(min, q2))
    requires Uint(f, q2, 1) == Some(Parsed(max, q3))
    requires Uint(f, q3, 8) == Some(Parsed(subFile, q4))
    requires Uint(f, q4, 8) == Some(Parsed(subFileSize, q5))
    ensures IntervalRecord(f, p, bbox, tm) ==
              Some(Parsed(ZoomInterval(base, min, max, subFile, subFileSize,
                                       TilesAcross(bbox, tm, base), TilesDown(bbox, tm, base)), q5))
  {
    UintOneByte(f, p);
    UintOneByte(f, p + 1);
    UintOneByte(f, p + 2);
    UintInBlock(f, p, IntervalRecordLength, 3, 8);
    UintInBlock(f, p, IntervalRecordLength, 11, 8);
  }

  /** One zoom-interval record, read through the cursor. */
  method ReadInterval(fb: FileBuffer, bbox: seq<int>, tm: TileMath) returns (ok: bool, iv: ZoomInterval)
    requires fb.Ready() && |bbox| == 4
    modifies fb`filePos, fb`bufferPos, fb`bytesRead, fb.buffer
    ensures fb.Ready() && fb.file == old(fb.file)
    ensures IntervalRecord(fb.file, old(fb.Pos()), bbox, tm) == if ok then Some(Parsed(iv, fb.Pos())) else None
  {
    ghost var f, p := fb.file, fb.Pos();
    iv := ZoomInterval(0, 0, 0, 0, 0, 0, 0);
    var base, min, max, subFile, subFileSize;
    ok, base := fb.GetUint(1);
    if !ok { return; }
    ghost var q1 := fb.Pos();
    ok, min := fb.GetUint(1);
    if !ok { return; }
    ghost var q2 := fb.Pos();
    ok, max := fb.GetUint(1);
    if !ok { return; }
    ghost var q3 := fb.Pos();
    ok, subFile := fb.GetUint(8);
    if !ok { return; }
    ghost var q4 := fb.Pos();
    ok, subFileSize := fb.GetUint(8);
    if !ok { return; }
    IntervalFromFields(f, p, bbox, tm, base, min, max, subFile, subFileSize, q1, q2, q3, q4, fb.Pos());
    iv := ZoomInterval(base, min, max, subFile, subFileSize,
                       TilesAcross(bbox, tm, base), TilesDown(bbox, tm, base));
  }

  /** The zoom-interval table of `count` records, read through the cursor (the zoom_id loop). */
  method ReadIntervals(fb: FileBuffer, count: nat, bbox: seq<int>, tm: TileMath) returns (ok: bool, ivs: seq<ZoomInterval>)
    requires fb.Ready() && |bbox| == 4
    modifies fb`filePos, fb`bufferPos, fb`bytesRead, fb.buffer
    ensures fb.Ready() && fb.file == old(fb.file)
    ensures Intervals(fb.file, old(fb.Pos()), count, bbox, tm) == if ok then Some(Parsed(ivs, fb.Pos())) else None
  {
    ghost var f, p := fb.file, fb.Pos();
    ivs := [];
    for i := 0 to count
      invariant fb.Ready() && fb.file == f
      invariant Intervals(f, p, i, bbox, tm) == Some(Parsed(ivs, fb.Pos()))
    {
      ghost var q := fb.Pos();
      var got, iv := ReadInterval(fb, bbox, tm);
      IntervalsStep(f, p, i, bbox, tm, q);
      if !got {
        IntervalsFailurePersists(f, p, i + 1, count, bbox, tm);
        return false, [];
      }
      ivs := ivs + [iv];
    }
    ok := true;
  }

  /** A tag-name table with its u16 count, read through the cursor. */
  method ReadTable(fb: FileBuffer) returns (ok: bool, names: seq<seq<Byte>>)
    requires fb.Ready()
    modifies fb`filePos, fb`bufferPos, fb`bytesRead, fb.buffer
    ensures fb.Ready() && fb.file == old(fb.file)
    ensures ParseTable(fb.file, old(fb.Pos())) == if ok then Some(Parsed(names, fb.Pos())) else None
  {
    names := [];
    var count;
    ok, count := fb.GetUint(2);
    if !ok { return; }
    ok, names := ReadNames(fb, count);
  }

  /** The zoom-interval table with its u8 count, read through the cursor. */
  method ReadIntervalTable(fb: FileBuffer, bbox: seq<int>, tm: TileMath) returns (ok: bool, ivs: seq<ZoomInterval>)
    requires fb.Ready() && |bbox| == 4
    modifies fb`filePos, fb`bufferPos, fb`bytesRead, fb.buffer
    ensures fb.Ready() && fb.file == old(fb.file)
    ensures ParseIntervalTable(fb.file, old(fb.Pos()), bbox, tm) == if ok then Some(Parsed(ivs, fb.Pos())) else None
  {
    ivs := [];
    var count;
    ok, count := fb.GetUint(1);
    if !ok { return; }
    ok, ivs := ReadIntervals(fb, count, bbox, tm);
  }

  /** The header after the magic, read through the cursor. */
  method ReadHeader(fb: FileBuffer, tm: TileMath) returns (ok: bool, h: Header)
    requires fb.Ready() && fb.Pos() == 20
    modifies fb`filePos, fb`bufferPos, fb`bytesRead, fb.buffer
    ensures fb.Ready() && fb.file == old(fb.file)
    ensures ParseHeader(fb.file, tm) == if ok then Some(Parsed(h, fb.Pos())) else None
  {
    h := Header(FixedFields(0, 0, 0, 0, [], 0, [], 0), OptionalFields([], 0, [], [], []), [], [], []);
    var fixed, optional, poi, way, intervals;
    ok, fixed := ReadFixed(fb);
    if !ok { return; }
    ok, optional := ReadOptional(fb, fixed.flags);
    if !ok { return; }
    ok, poi := ReadTable(fb);
    if !ok { return; }
    ok, way := ReadTable(fb);
    if !ok { return; }
    ok, intervals := ReadIntervalTable(fb, fixed.boundingBox, tm);
    if !ok { return; }
    h := Header(fixed, optional, poi, way, intervals);
  }
}
