/**
 * The reference encoding of a Mapsforge file header, the inverse of the
 * header parser of MapHeader: every field big-endian at its own width,
 * strings prefixed by their one-byte length, an optional field present
 * only under its flag bit, and 19-byte zoom-interval records.
 *
 * HeaderRoundTrip proves that load_map's header reading recovers every
 * field of a header from its encoding, and stops just after it.
 */
module HeaderCodec {
  import opened Wrappers
  import opened Wire
  import opened MapHeader

  // ---------------------------------------------------------------------
  // Which headers have an encoding
  // ---------------------------------------------------------------------

  predicate FitsInt(v: int, n: nat)
  {
    -(Pow256(n) as int) <= 2 * v < Pow256(n)
  }

  /** Every fixed field fits its width, and the projection its length byte. */
  predicate ValidFixed(h: FixedFields)
  {
    h.headerSize < U32 && h.fileVersion < U32 && h.fileSize < U64 && FitsInt(h.fileCreation, 8) &&
    |h.boundingBox| == 4 &&
    FitsInt(h.boundingBox[0], 4) && FitsInt(h.boundingBox[1], 4) &&
    FitsInt(h.boundingBox[2], 4) && FitsInt(h.boundingBox[3], 4) &&
    h.tileSize < U16 && |h.projection| < 256
  }

  /** A field whose flag is off holds its default; one whose flag is on fits its width. */
  predicate ValidOptional(flags: Byte, o: OptionalFields)
  {
    |o.startPosition| == 2 &&
    (if HasFlag(flags, StartPositionBit) then o.startPosition[0] < U32 && o.startPosition[1] < U32
     else o.startPosition == [0, 0]) &&
    (if HasFlag(flags, StartZoomBit) then o.startZoom < 256 else o.startZoom == 0) &&
    (if HasFlag(flags, LanguageBit) then |o.language| < 256 else o.language == []) &&
    (if HasFlag(flags, CommentBit) then |o.comment| < 256 else o.comment == []) &&
    (if HasFlag(flags, CreatedByBit) then |o.createdBy| < 256 else o.createdBy == [])
  }

  predicate ShortNames(names: seq<seq<Byte>>)
  {
    forall i :: 0 <= i < |names| ==> |names[i]| < 256
  }

  /** A record's zooms are bytes and its sub-file fields are u64. */
  predicate ValidInterval(iv: ZoomInterval)
  {
    iv.baseZoom < 256 && iv.minZoom < 256 && iv.maxZoom < 256 && iv.subFile < U64 && iv.subFileSize < U64
  }

  predicate ValidIntervals(ivs: seq<ZoomInterval>)
  {
    forall i :: 0 <= i < |ivs| ==> ValidInterval(ivs[i])
  }

  /** A header that has an encoding: fields fit, tables fit their u16 and u8 counts. */
  predicate WellFormed(h: Header)
  {
    ValidFixed(h.fixed) && ValidOptional(h.fixed.flags, h.optional) &&
    |h.poiTags| < U16 && ShortNames(h.poiTags) &&
    |h.wayTags| < U16 && ShortNames(h.wayTags) &&
    |h.zoomIntervals| < 256 && ValidIntervals(h.zoomIntervals)
  }

  /** Tile counts are not stored: a header the parser can yield carries the derived ones. */
  predicate Derived(ivs: seq<ZoomInterval>, bbox: seq<int>, tm: TileMath)
    requires |bbox| == 4
  {
    forall i :: 0 <= i < |ivs| ==>
      ivs[i].nTilesX == TilesAcross(bbox, tm, ivs[i].baseZoom) &&
      ivs[i].nTilesY == TilesDown(bbox, tm, ivs[i].baseZoom)
  }

  predicate ValidHeader(h: Header, tm: TileMath)
  {
    WellFormed(h) && Derived(h.zoomIntervals, h.fixed.boundingBox, tm)
  }

  // ---------------------------------------------------------------------
  // The encoding
  // ---------------------------------------------------------------------

  /** The four size fields: u32, u32, u64 and the signed creation time. */
  function EncodeSizes(h: FixedFields): (bs: seq<Byte>)
    requires ValidFixed(h)
    ensures |bs| == SizesLength
  {
    EncodeBigEndian(h.headerSize, 4) + EncodeBigEndian(h.fileVersion, 4) +
    EncodeBigEndian(h.fileSize, 8) + EncodeSigned(h.fileCreation, 8)
  }

  /** The four signed coordinates and the u16 tile size. */
  function EncodeBox(h: FixedFields): (bs: seq<Byte>)
    requires ValidFixed(h)
    ensures |bs| == BoxLength
  {
    EncodeSigned(h.boundingBox[0], 4) + EncodeSigned(h.boundingBox[1], 4) +
    EncodeSigned(h.boundingBox[2], 4) + EncodeSigned(h.boundingBox[3], 4) +
    EncodeBigEndian(h.tileSize, 2)
  }

  function EncodeFixed(h: FixedFields): (bs: seq<Byte>)
    requires ValidFixed(h)
    ensures |bs| == FixedLength(h.projection)
  {
    EncodeSizes(h) + EncodeBox(h) + EncodeStr(h.projection) + [h.flags]
  }

  function OptEncodeUint(v: nat, n: nat, present: bool): seq<Byte>
  {
    if present then EncodeBigEndian(v, n) else []
  }

  function OptEncodeStr(s: seq<Byte>, present: bool): seq<Byte>
    requires present ==> |s| < 256
  {
    if present then EncodeStr(s) else []
  }

  function EncodeStart(flags: Byte, o: OptionalFields): seq<Byte>
    requires |o.startPosition| == 2
  {
    OptEncodeUint(o.startPosition[0], 4, HasFlag(flags, StartPositionBit)) +
    OptEncodeUint(o.startPosition[1], 4, HasFlag(flags, StartPositionBit)) +
    OptEncodeUint(o.startZoom, 1, HasFlag(flags, StartZoomBit))
  }

  function EncodeTexts(flags: Byte, o: OptionalFields): seq<Byte>
    requires ValidOptional(flags, o)
  {
    OptEncodeStr(o.language, HasFlag(flags, LanguageBit)) +
    OptEncodeStr(o.comment, HasFlag(flags, CommentBit)) +
    OptEncodeStr(o.createdBy, HasFlag(flags, CreatedByBit))
  }

  function EncodeOptional(flags: Byte, o: OptionalFields): seq<Byte>
    requires ValidOptional(flags, o)
  {
    EncodeStart(flags, o) + EncodeTexts(flags, o)
  }

  /** The names of a tag-name table, each with its length byte. */
  function EncodeNames(names: seq<seq<Byte>>): seq<Byte>
    requires ShortNames(names)
    decreases |names|
  {
    if names == [] then []
    else EncodeNames(names[..|names| - 1]) + EncodeStr(names[|names| - 1])
  }

  /** A 19-byte record: base, min and max zoom, then sub-file start and size. */
  function EncodeInterval(iv: ZoomInterval): (bs: seq<Byte>)
    requires ValidInterval(iv)
    ensures |bs| == IntervalRecordLength
  {
    [iv.baseZoom, iv.minZoom, iv.maxZoom] + EncodeBigEndian(iv.subFile, 8) + EncodeBigEndian(iv.subFileSize, 8)
  }

  function EncodeIntervals(ivs: seq<ZoomInterval>): seq<Byte>
    requires ValidIntervals(ivs)
    decreases |ivs|
  {
    if ivs == [] then []
    else EncodeIntervals(ivs[..|ivs| - 1]) + EncodeInterval(ivs[|ivs| - 1])
  }

  /** A tag-name table: its u16 count, then the names. */
  function EncodeTable(names: seq<seq<Byte>>): seq<Byte>
    requires ShortNames(names)
  {
    EncodeBigEndian(|names|, 2) + EncodeNames(names)
  }

  /** The zoom-interval table: its u8 count, then the records. */
  function EncodeIntervalTable(ivs: seq<ZoomInterval>): seq<Byte>
    requires ValidIntervals(ivs)
  {
    EncodeBigEndian(|ivs|, 1) + EncodeIntervals(ivs)
  }

  /** The header after the magic. */
  function EncodeHeader(h: Header): seq<Byte>
    requires WellFormed(h)
  {
    EncodeFixed(h.fixed) + EncodeOptional(h.fixed.flags, h.optional) +
    EncodeTable(h.poiTags) + EncodeTable(h.wayTags) + EncodeIntervalTable(h.zoomIntervals)
  }

  // ---------------------------------------------------------------------
  // Decoding an encoding gives the header back
  // ---------------------------------------------------------------------

  /** The sizes and creation time decode to the values they encode. */
  lemma SizesRoundTrip(h: FixedFields)
    requires ValidFixed(h)
    ensures SizesOf(EncodeSizes(h)) == (h.headerSize, h.fileVersion, h.fileSize, h.fileCreation)
  {
    var b := EncodeSizes(h);
    assert b[0..4] == EncodeBigEndian(h.headerSize, 4);
    assert b[4..8] == EncodeBigEndian(h.fileVersion, 4);
    assert b[8..16] == EncodeBigEndian(h.fileSize, 8);
    assert b[16..24] == EncodeSigned(h.fileCreation, 8);
    assert Pow256(4) == U32 && Pow256(8) == U64;
    BigEndianRoundTrip(h.headerSize, 4);
    BigEndianRoundTrip(h.fileVersion, 4);
    BigEndianRoundTrip(h.fileSize, 8);
    SignedRoundTrip(h.fileCreation, 8);
  }

  /** The bounding box and tile size decode to the values they encode. */
  lemma BoxRoundTrip(h: FixedFields)
    requires ValidFixed(h)
    ensures BoxOf(EncodeBox(h)) == (h.boundingBox, h.tileSize)
  {
    var b := EncodeBox(h);
    assert b[0..4] == EncodeSigned(h.boundingBox[0], 4);
    assert b[4..8] == EncodeSigned(h.boundingBox[1], 4);
    assert b[8..12] == EncodeSigned(h.boundingBox[2], 4);
    assert b[12..16] == EncodeSigned(h.boundingBox[3], 4);
    assert b[16..18] == EncodeBigEndian(h.tileSize, 2);
    assert Pow256(4) == U32 && Pow256(2) == U16;
    SignedRoundTrip(h.boundingBox[0], 4);
    SignedRoundTrip(h.boundingBox[1], 4);
    SignedRoundTrip(h.boundingBox[2], 4);
    SignedRoundTrip(h.boundingBox[3], 4);
    BigEndianRoundTrip(h.tileSize, 2);
    assert BoxOf(b).0 == h.boundingBox;
  }

  /** The bytes before the projection decode to the fields they encode. */
  lemma FixedHeadRoundTrip(h: FixedFields)
    requires ValidFixed(h)
    ensures FixedFromHead(EncodeSizes(h) + EncodeBox(h), h.projection, h.flags) == h
  {
    var sizes, box := EncodeSizes(h), EncodeBox(h);
    var head := sizes + box;
    assert head[..SizesLength] == sizes && head[SizesLength..] == box;
    SizesRoundTrip(h);
    BoxRoundTrip(h);
  }

  lemma FixedRoundTrip(f: seq<Byte>, p: nat, h: FixedFields, q: nat)
    requires ValidFixed(h) && At(f, p, EncodeFixed(h)) && q == p + |EncodeFixed(h)|
    ensures ParseFixed(f, p) == Some(Parsed(h, q))
  {
    var head := EncodeSizes(h) + EncodeBox(h);
    var q1, q2, q3 := AtSplitThree(f, p, head, EncodeStr(h.projection), [h.flags]);
    assert Bytes(f, p, FixedHeadLength) == Some(Parsed(head, q1));
    StrRoundTrip(f, q1, h.projection, q2);
    UintByteRoundTrip(f, q2, h.flags, q3);
    FixedHeadRoundTrip(h);
    ParseFixedFromParts(f, p, head, h.projection, h.flags, q1, q2, q3);
  }


  lemma OptUintRoundTrip(f: seq<Byte>, p: nat, v: nat, n: nat, present: bool, q: nat)
    requires if present then v < Pow256(n) else v == 0
    requires At(f, p, OptEncodeUint(v, n, present)) && q == p + |OptEncodeUint(v, n, present)|
    ensures OptUint(f, p, n, present) == Some(Parsed(v, q))
  {
    if present {
      UintRoundTrip(f, p, v, n);
    }
  }

  lemma OptStrRoundTrip(f: seq<Byte>, p: nat, s: seq<Byte>, present: bool, q: nat)
    requires if present then |s| < 256 else s == []
    requires At(f, p, OptEncodeStr(s, present)) && q == p + |OptEncodeStr(s, present)|
    ensures OptStr(f, p, present) == Some(Parsed(s, q))
  {
    if present {
      StrRoundTrip(f, p, s, q);
    }
  }

  lemma StartRoundTrip(f: seq<Byte>, p: nat, flags: Byte, o: OptionalFields)
    requires ValidOptional(flags, o) && At(f, p, EncodeStart(flags, o))
    ensures ParseStart(f, p, flags) == Some(Parsed((o.startPosition, o.startZoom), p + |EncodeStart(flags, o)|))
  {
    assert Pow256(4) == U32 && Pow256(1) == 256;
    StartFieldsRoundTrip(f, p, flags, o.startPosition[0], o.startPosition[1], o.startZoom, p + |EncodeStart(flags, o)|);
    assert [o.startPosition[0], o.startPosition[1]] == o.startPosition;
  }

  /** StartRoundTrip over the three numbers of the start fields. */
  lemma StartFieldsRoundTrip(f: seq<Byte>, p: nat, flags: Byte, lat: nat, lon: nat, zoom: nat, q: nat)
    requires if HasFlag(flags, StartPositionBit) then lat < Pow256(4) && lon < Pow256(4) else lat == 0 && lon == 0
    requires if HasFlag(flags, StartZoomBit) then zoom < Pow256(1) else zoom == 0
    requires At(f, p, OptEncodeUint(lat, 4, HasFlag(flags, StartPositionBit)) +
                      OptEncodeUint(lon, 4, HasFlag(flags, StartPositionBit)) +
                      OptEncodeUint(zoom, 1, HasFlag(flags, StartZoomBit)))
    requires q == p + |OptEncodeUint(lat, 4, HasFlag(flags, StartPositionBit))| +
                      |OptEncodeUint(lon, 4, HasFlag(flags, StartPositionBit))| +
                      |OptEncodeUint(zoom, 1, HasFlag(flags, StartZoomBit))|
    ensures ParseStart(f, p, flags) == Some(Parsed(([lat, lon], zoom), q))
  {
    var pos, z := HasFlag(flags, StartPositionBit), HasFlag(flags, StartZoomBit);
    var e1, e2, e3 := OptEncodeUint(lat, 4, pos), OptEncodeUint(lon, 4, pos), OptEncodeUint(zoom, 1, z);
    var q1, q2, q3 := AtSplitThree(f, p, e1, e2, e3);
    OptUintRoundTrip(f, p, lat, 4, pos, q1);
    OptUintRoundTrip(f, q1, lon, 4, pos, q2);
    OptUintRoundTrip(f, q2, zoom, 1, z, q3);
    StartFromFields(f, p, flags, q1, q2, q, lat, lon, zoom);
  }

  /** ParseStart over three numbers read one after the other. */
  lemma StartFromFields(f: seq<Byte>, p: nat, flags: Byte, q1: nat, q2: nat, q3: nat, lat: nat, lon: nat, zoom: nat)
    requires OptUint(f, p, 4, HasFlag(flags, StartPositionBit)) == Some(Parsed(lat, q1))
    requires OptUint(f, q1, 4, HasFlag(flags, StartPositionBit)) == Some(Parsed(lon, q2))
    requires OptUint(f, q2, 1, HasFlag(flags, StartZoomBit)) == Some(Parsed(zoom, q3))
    ensures ParseStart(f, p, flags) == Some(Parsed(([lat, lon], zoom), q3))
  {
  }

  lemma TextsRoundTrip(f: seq<Byte>, p: nat, flags: Byte, o: OptionalFields, q: nat)
    requires ValidOptional(flags, o) && At(f, p, EncodeTexts(flags, o)) && q == p + |EncodeTexts(flags, o)|
    ensures ParseTexts(f, p, flags) == Some(Parsed((o.language, o.comment, o.createdBy), q))
  {
    var e1 := OptEncodeStr(o.language, HasFlag(flags, LanguageBit));
    var e2 := OptEncodeStr(o.comment, HasFlag(flags, CommentBit));
    var e3 := OptEncodeStr(o.createdBy, HasFlag(flags, CreatedByBit));
    assert EncodeTexts(flags, o) == e1 + e2 + e3;
    TextsPieces(f, p, flags, o, e1, e2, e3);
  }

  /** TextsRoundTrip over the three encoded strings. */
  lemma TextsPieces(f: seq<Byte>, p: nat, flags: Byte, o: OptionalFields, e1: seq<Byte>, e2: seq<Byte>, e3: seq<Byte>)
    requires ValidOptional(flags, o)
    requires e1 == OptEncodeStr(o.language, HasFlag(flags, LanguageBit))
    requires e2 == OptEncodeStr(o.comment, HasFlag(flags, CommentBit))
    requires e3 == OptEncodeStr(o.createdBy, HasFlag(flags, CreatedByBit))
    requires At(f, p, e1 + e2 + e3)
    ensures ParseTexts(f, p, flags) == Some(Parsed((o.language, o.comment, o.createdBy), p + |e1| + |e2| + |e3|))
  {
    var q1, q2, q3 := AtSplitThree(f, p, e1, e2, e3);
    OptStrRoundTrip(f, p, o.language, HasFlag(flags, LanguageBit), q1);
    OptStrRoundTrip(f, q1, o.comment, HasFlag(flags, CommentBit), q2);
    OptStrRoundTrip(f, q2, o.createdBy, HasFlag(flags, CreatedByBit), q3);
    TextsFromFields(f, p, flags, q1, q2, q3, o.language, o.comment, o.createdBy);
  }

  /** ParseTexts over three strings read one after the other. */
  lemma TextsFromFields(f: seq<Byte>, p: nat, flags: Byte, q1: nat, q2: nat, q3: nat,
                        language: seq<Byte>, comment: seq<Byte>, createdBy: seq<Byte>)
    requires OptStr(f, p, HasFlag(flags, LanguageBit)) == Some(Parsed(language, q1))
    requires OptStr(f, q1, HasFlag(flags, CommentBit)) == Some(Parsed(comment, q2))
    requires OptStr(f, q2, HasFlag(flags, CreatedByBit)) == Some(Parsed(createdBy, q3))
    ensures ParseTexts(f, p, flags) == Some(Parsed((language, comment, createdBy), q3))
  {
  }

  lemma OptionalRoundTrip(f: seq<Byte>, p: nat, flags: Byte, o: OptionalFields, q: nat)
    requires ValidOptional(flags, o) && At(f, p, EncodeOptional(flags, o)) && q == p + |EncodeOptional(flags, o)|
    ensures ParseOptional(f, p, flags) == Some(Parsed(o, q))
  {
    var q1 := p + |EncodeStart(flags, o)|;
    AtSplit(f, p, EncodeStart(flags, o), EncodeTexts(flags, o));
    StartRoundTrip(f, p, flags, o);
    TextsRoundTrip(f, q1, flags, o, q);
    OptionalFromParts(f, p, flags, o, q1, q);
  }

  /** ParseOptional over the start fields and the strings read after them. */
  lemma OptionalFromParts(f: seq<Byte>, p: nat, flags: Byte, o: OptionalFields, q1: nat, q: nat)
    requires ParseStart(f, p, flags) == Some(Parsed((o.startPosition, o.startZoom), q1))
    requires ParseTexts(f, q1, flags) == Some(Parsed((o.language, o.comment, o.createdBy), q))
    ensures ParseOptional(f, p, flags) == Some(Parsed(o, q))
  {
  }

  lemma {:induction false} NamesRoundTrip(f: seq<Byte>, p: nat, names: seq<seq<Byte>>, q: nat)
    requires ShortNames(names) && At(f, p, EncodeNames(names)) && q == p + |EncodeNames(names)|
    ensures Names(f, p, |names|) == Some(Parsed(names, q))
    decreases |names|
  {
    if names != [] {
      var init, last := names[..|names| - 1], names[|names| - 1];
      assert init + [last] == names;
      var q0 := p + |EncodeNames(init)|;
      AtSplit(f, p, EncodeNames(init), EncodeStr(last));
      NamesRoundTrip(f, p, init, q0);
      StrRoundTrip(f, q0, last, q);
      NamesStep(f, p, init, last, q0, q);
    }
  }

  /** A table of k names followed by one more name is a table of k + 1 names. */
  lemma NamesStep(f: seq<Byte>, p: nat, init: seq<seq<Byte>>, last: seq<Byte>, q0: nat, q: nat)
    requires Names(f, p, |init|) == Some(Parsed(init, q0)) && Str(f, q0) == Some(Parsed(last, q))
    ensures Names(f, p, |init| + 1) == Some(Parsed(init + [last], q))
  {
    assert (init + [last])[..|init|] == init;
  }

  /** A record decodes to the interval it encodes, with the derived tile counts. */
  lemma IntervalFieldsRoundTrip(iv: ZoomInterval, bbox: seq<int>, tm: TileMath)
    requires ValidInterval(iv) && |bbox| == 4
    requires iv.nTilesX == TilesAcross(bbox, tm, iv.baseZoom) && iv.nTilesY == TilesDown(bbox, tm, iv.baseZoom)
    ensures IntervalFields(EncodeInterval(iv), bbox, tm) == iv
  {
    var rec := EncodeInterval(iv);
    assert rec[3..11] == EncodeBigEndian(iv.subFile, 8);
    assert rec[11..19] == EncodeBigEndian(iv.subFileSize, 8);
    assert Pow256(8) == U64;
    BigEndianRoundTrip(iv.subFile, 8);
    BigEndianRoundTrip(iv.subFileSize, 8);
  }

  lemma {:induction false} IntervalsRoundTrip(f: seq<Byte>, p: nat, ivs: seq<ZoomInterval>, bbox: seq<int>, tm: TileMath, q: nat)
    requires |bbox| == 4 && ValidIntervals(ivs) && Derived(ivs, bbox, tm)
    requires At(f, p, EncodeIntervals(ivs)) && q == p + |EncodeIntervals(ivs)|
    ensures Intervals(f, p, |ivs|, bbox, tm) == Some(Parsed(ivs, q))
    decreases |ivs|
  {
    if ivs != [] {
      var init, last := ivs[..|ivs| - 1], ivs[|ivs| - 1];
      assert init + [last] == ivs;
      var q0 := p + |EncodeIntervals(init)|;
      AtSplit(f, p, EncodeIntervals(init), EncodeInterval(last));
      IntervalsRoundTrip(f, p, init, bbox, tm, q0);
      IntervalRecordRoundTrip(f, q0, last, bbox, tm, q);
      IntervalsStep(f, p, |init|, bbox, tm, q0);
    }
  }

  /** One record decodes to the interval it encodes. */
  lemma IntervalRecordRoundTrip(f: seq<Byte>, p: nat, iv: ZoomInterval, bbox: seq<int>, tm: TileMath, q: nat)
    requires |bbox| == 4 && ValidInterval(iv)
    requires iv.nTilesX == TilesAcross(bbox, tm, iv.baseZoom) && iv.nTilesY == TilesDown(bbox, tm, iv.baseZoom)
    requires At(f, p, EncodeInterval(iv)) && q == p + |EncodeInterval(iv)|
    ensures IntervalRecord(f, p, bbox, tm) == Some(Parsed(iv, q))
  {
    IntervalFieldsRoundTrip(iv, bbox, tm);
  }


  /**
   * The header reading of load_map recovers every field: a file holding the
   * magic, then the encoding of a header, then anything, reads back as that
   * header, and the reading ends right after the encoding.
   */
  lemma HeaderRoundTrip(h: Header, tm: TileMath, rest: seq<Byte>)
    requires ValidHeader(h, tm)
    ensures HasMagic(Magic + EncodeHeader(h) + rest)
    ensures ParseHeader(Magic + EncodeHeader(h) + rest, tm) == Some(Parsed(h, 20 + |EncodeHeader(h)|))
  {
    var e := EncodeHeader(h);
    var f := Magic + e + rest;
    assert f[..20] == Magic;
    assert f[20..20 + |e|] == e;
    HeaderAt(f, h, tm);
  }

  /** The same, for any file whose bytes from 20 on begin with the encoding. */
  lemma HeaderAt(f: seq<Byte>, h: Header, tm: TileMath)
    requires ValidHeader(h, tm) && At(f, 20, EncodeHeader(h))
    ensures ParseHeader(f, tm) == Some(Parsed(h, 20 + |EncodeHeader(h)|))
  {
    var p1, p2, p3, p4, p5 := HeaderSplit(f, h);
    HeaderPieces(f, h, tm, p1, p2, p3, p4, p5);
  }

  /** Where each of the five parts of an encoded header starts. */
  lemma HeaderSplit(f: seq<Byte>, h: Header) returns (p1: nat, p2: nat, p3: nat, p4: nat, p5: nat)
    requires WellFormed(h) && At(f, 20, EncodeHeader(h))
    ensures At(f, 20, EncodeFixed(h.fixed)) && p1 == 20 + |EncodeFixed(h.fixed)|
    ensures At(f, p1, EncodeOptional(h.fixed.flags, h.optional))
    ensures p2 == p1 + |EncodeOptional(h.fixed.flags, h.optional)|
    ensures At(f, p2, EncodeTable(h.poiTags)) && p3 == p2 + |EncodeTable(h.poiTags)|
    ensures At(f, p3, EncodeTable(h.wayTags)) && p4 == p3 + |EncodeTable(h.wayTags)|
    ensures At(f, p4, EncodeIntervalTable(h.zoomIntervals)) && p5 == p4 + |EncodeIntervalTable(h.zoomIntervals)|
    ensures p5 == 20 + |EncodeHeader(h)|
  {
    var fixed, optional := EncodeFixed(h.fixed), EncodeOptional(h.fixed.flags, h.optional);
    var poi, way, ivs := EncodeTable(h.poiTags), EncodeTable(h.wayTags), EncodeIntervalTable(h.zoomIntervals);
    p1, p2, p3, p4, p5 := AtSplitFive(f, 20, fixed, optional, poi, way, ivs);
  }

  /** ParseHeader over the five parts of the encoding, each found where the previous one ends. */
  lemma HeaderPieces(f: seq<Byte>, h: Header, tm: TileMath, p1: nat, p2: nat, p3: nat, p4: nat, p5: nat)
    requires ValidHeader(h, tm)
    requires At(f, 20, EncodeFixed(h.fixed)) && p1 == 20 + |EncodeFixed(h.fixed)|
    requires At(f, p1, EncodeOptional(h.fixed.flags, h.optional))
    requires p2 == p1 + |EncodeOptional(h.fixed.flags, h.optional)|
    requires At(f, p2, EncodeTable(h.poiTags)) && p3 == p2 + |EncodeTable(h.poiTags)|
    requires At(f, p3, EncodeTable(h.wayTags)) && p4 == p3 + |EncodeTable(h.wayTags)|
    requires At(f, p4, EncodeIntervalTable(h.zoomIntervals)) && p5 == p4 + |EncodeIntervalTable(h.zoomIntervals)|
    ensures ParseHeader(f, tm) == Some(Parsed(h, p5))
  {
    FixedRoundTrip(f, 20, h.fixed, p1);
    OptionalRoundTrip(f, p1, h.fixed.flags, h.optional, p2);
    TableRoundTrip(f, p2, h.poiTags, p3);
    TableRoundTrip(f, p3, h.wayTags, p4);
    IntervalTableRoundTrip(f, p4, h.zoomIntervals, h.fixed.boundingBox, tm, p5);
    HeaderFromParts(f, tm, h.fixed, h.optional, h.poiTags, h.wayTags, h.zoomIntervals, p1, p2, p3, p4, p5);
  }

  /** A tag-name table decodes to its names. */
  lemma TableRoundTrip(f: seq<Byte>, p: nat, names: seq<seq<Byte>>, q: nat)
    requires |names| < U16 && ShortNames(names) && At(f, p, EncodeTable(names)) && q == p + |EncodeTable(names)|
    ensures ParseTable(f, p) == Some(Parsed(names, q))
  {
    assert Pow256(2) == U16;
    AtSplit(f, p, EncodeBigEndian(|names|, 2), EncodeNames(names));
    UintRoundTrip(f, p, |names|, 2);
    NamesRoundTrip(f, p + 2, names, q);
  }

  /** The zoom-interval table decodes to its intervals. */
  lemma IntervalTableRoundTrip(f: seq<Byte>, p: nat, ivs: seq<ZoomInterval>, bbox: seq<int>, tm: TileMath, q: nat)
    requires |bbox| == 4 && |ivs| < 256 && ValidIntervals(ivs) && Derived(ivs, bbox, tm)
    requires At(f, p, EncodeIntervalTable(ivs)) && q == p + |EncodeIntervalTable(ivs)|
    ensures ParseIntervalTable(f, p, bbox, tm) == Some(Parsed(ivs, q))
  {
    assert Pow256(1) == 256;
    AtSplit(f, p, EncodeBigEndian(|ivs|, 1), EncodeIntervals(ivs));
    UintRoundTrip(f, p, |ivs|, 1);
    IntervalsRoundTrip(f, p + 1, ivs, bbox, tm, q);
  }

  /** ParseHeader over its parts, each found where the previous one ends. */
  lemma HeaderFromParts(f: seq<Byte>, tm: TileMath, fixed: FixedFields, optional: OptionalFields,
                        poi: seq<seq<Byte>>, way: seq<seq<Byte>>, ivs: seq<ZoomInterval>,
                        p1: nat, p2: nat, p3: nat, p4: nat, p5: nat)
    requires |fixed.boundingBox| == 4
    requires ParseFixed(f, 20) == Some(Parsed(fixed, p1))
    requires ParseOptional(f, p1, fixed.flags) == Some(Parsed(optional, p2))
    requires ParseTable(f, p2) == Some(Parsed(poi, p3)) && ParseTable(f, p3) == Some(Parsed(way, p4))
    requires ParseIntervalTable(f, p4, fixed.boundingBox, tm) == Some(Parsed(ivs, p5))
    ensures ParseHeader(f, tm) == Some(Parsed(Header(fixed, optional, poi, way, ivs), p5))
  {
  }
}
