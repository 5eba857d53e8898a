# mapmini tile loader, arena, file cursor and frame-buffer HAL in Dafny

This project models the map-tile decoding path of mapmini, an ESP32-C3 map viewer that reads Mapsforge binary map files. It covers four parts:

- **`load_map`** (components/mapmini/src/map.c). It checks the 20-byte magic "mapsforge binary OSM" and reads the file header: the fixed fields, the optional fields switched on by the flag byte, the POI and way tag-name tables and the zoom-interval table. It then picks the zoom interval, reads the tile's 5-byte directory entry and splits it into the water bit (bit 39) and a 39-bit offset. It reads the per-zoom (POI count, way count) table into two 22-slot arrays, seeks to the first way, and decodes `ways[12]` ways into a list allocated from the arena. Its way loop mishandles a skip in slot 0 (Findings row 1). The end-to-end model uses the corrected loop, which keeps exactly the ways `get_way` does not skip; the loop as written is modelled beside it. Also modelled is the style lookup and segment loop of `g_draw_way`: a first-match scan of the way's tag ids over a style table, then one segment per pair of consecutive nodes.
- **The bump arena** (components/mapmini/src/memory.c): `arena_init`, `arena_malloc`, `arena_free`.
- **The buffered file cursor** (components/mapmini/src/io_posix.c): `init_buffer`, `load_buffer`, `get_remaining_bytes`, `relative_reset_buffer`.
- **The frame-buffer HAL** (components/hagl/src/hagl_hal.c): `hagl_hal_color`, `hagl_hal_put_pixel`, `hagl_hal_hline`, `hagl_hal_vline`.

Layout, one module per file:

| file | module | what |
|---|---|---|
| wrappers.dfy | Wrappers | `Option` with failure propagation |
| wire.dfy | Wire | byte readers over the whole file: big-endian integers, length-prefixed strings, VBE-U integers |
| io_posix.dfy | FileIo | class `FileBuffer`: the `fb_handler` window, plus the getters that read through it |
| memory.dfy | Memory | class `Arena` |
| hagl_hal.dfy | Hal | `Color` and class `FrameBuffer` |
| way.dfy | WayRecord | a decoded way and the results of `get_way` calls |
| map_header.dfy | MapHeader | the file header: parse functions and the methods that read it through the cursor |
| header_codec.dfy | HeaderCodec | the reference encoding of a header, and the proof that parsing it gives every field back |
| map_tile.dfy | MapTile | interval selection, the tile directory, the tile header and zoom table, the way loop |
| map_load.dfy | MapLoad | `load_map` end to end (`LoadMap`) and its reference definition (`LoadSpec`) |
| map_draw.dfy | MapDraw | the style lookup and segment loop of `g_draw_way` |

How the model is specified:

- Every parse is a function over the file as a byte sequence and an absolute position. It returns the value and the next position, or `None` when the file ends first.
- Each method that reads through the cursor is proved to return exactly what that function returns at the cursor's logical position `Pos()`. So buffering and refilling never change what is read.
- `LoadMap` is proved to produce `LoadSpec` of the file. On the arena it states the way-list block, the one allocation `load_map` makes itself; the allocations `get_way` makes from the same arena are outside the model.
- What each header field holds is fixed by a round trip: `HeaderRoundTrip` proves that the magic followed by `EncodeHeader(h)` parses back to `h`, ending right after the encoding.
- Paths on which the C code has undefined behaviour become explicit outcomes. These are reading past the end of the file, indexing past the interval table or the 22-slot arrays, and writing through a NULL way list.

Routines whose bodies are not part of this model become parameters or abstract readers:

- `long2tilex`/`lat2tiley` are a `TileMath` parameter over micro-degrees and a zoom level.
- `get_way` is a function from the call number to the way it leaves in its slot and whether it returned "skip".
- `rgb332` is a packing parameter.
- The `get_*` getters and `file_seek` are methods of `FileBuffer` that read through the window. When a read does not fit, they refill the window at the read position with `relative_reset_buffer(get_remaining_bytes())`.
- Multi-byte integers are big-endian. A VBE-U integer is read with the Mapsforge group order: the first byte carries the least significant seven bits.

## Model

| member | source | states |
|---|---|---|
| Wire.BigEndian | components/mapmini/src/map.c:179-193 | an n-byte big-endian field is below 256^n |
| Wire.BigEndianRoundTrip | components/mapmini/src/map.c:179-193 | decoding the n-byte encoding of any v < 256^n gives v back |
| Wire.BigEndianEncodes | components/mapmini/src/map.c:179-193 | encoding an n-byte field's value at width n gives its bytes back |
| Wire.Signed | components/mapmini/src/map.c:185-190 | the two's-complement reading of an n-byte value lies in the signed range and differs from it by 0 or 256^n |
| Wire.EncodeSigned | components/mapmini/src/map.c:185-190 | the two's-complement encoding has exactly n bytes |
| Wire.SignedRoundTrip | components/mapmini/src/map.c:185-190 | reading the two's-complement encoding of any v in range gives v back |
| Wire.SignedEncodes | components/mapmini/src/map.c:185-190 | encoding the signed reading of a field gives its bytes back |
| Wire.EncodeBigEndian | components/mapmini/src/map.c:179-193 | the encoding of a field has exactly its declared width |
| Wire.Bytes | components/mapmini/src/map.c:196-197 | n bytes are read exactly when they lie inside the file; they are the file's bytes there, and the position advances by n |
| Wire.Uint | components/mapmini/src/map.c:179-183 | an unsigned field succeeds exactly when its bytes are in the file, consumes its width, and is below 256^width |
| Wire.Int | components/mapmini/src/map.c:185-190 | a signed field succeeds exactly when its bytes are in the file, consumes its width, and lies in the two's-complement range |
| Wire.Str | components/mapmini/src/map.c:196-197 | a string is read exactly when its length byte f[p] and that many bytes lie inside the file; its value is f[p+1..p+1+f[p]] and it consumes 1 + length bytes |
| Wire.UintRoundTrip | components/mapmini/src/map.c:179-183 | an unsigned field holding the encoding of v reads back as v and ends n bytes on |
| Wire.IntRoundTrip | components/mapmini/src/map.c:185-190 | a signed field holding the encoding of v reads back as v and ends n bytes on |
| Wire.EncodeStr | components/mapmini/src/map.c:196-197 | a string encodes to its length byte and itself |
| Wire.StrRoundTrip | components/mapmini/src/map.c:196-197 | a length-prefixed string reads back as itself and ends right after it |
| Wire.UintOneByte | components/mapmini/src/map.c:196 | a u8 read yields the byte itself, or fails at the end of the file |
| Wire.UintByteRoundTrip | components/mapmini/src/map.c:196 | a one-byte field holding b reads back as b |
| Wire.Vbe | components/mapmini/src/map.c:324-330 | a VBE-U read consumes at least one byte and stays inside the file |
| Wire.VbeStopsAtFirstTerminator | components/mapmini/src/map.c:324-330 | a VBE-U read ends at the first byte below 0x80; it fails exactly when no such byte follows |
| Wire.EncodeVbe | components/mapmini/src/map.c:324-330 | an encoding is non-empty and its last byte has no continuation bit |
| Wire.VbeRoundTrip | components/mapmini/src/map.c:324-330 | reading the VBE-U encoding of v gives v and consumes the whole encoding |
| FileIo.Avail | components/mapmini/src/io_posix.c:22-25 | one fread returns at most the buffer size, only bytes inside the file, and fewer than the buffer size only at the end of the file |
| FileIo.FileBuffer.constructor | components/mapmini/src/map.c:160 | a fresh cursor: zero-filled window, nothing open, all positions 0 |
| FileIo.FileBuffer.Init | components/mapmini/src/io_posix.c:6-20 | a failed open returns 1 with buffer_pos == bytes_read == 0; a successful one returns 0 with the window holding the first min(size, length) bytes of the file |
| FileIo.FileBuffer.Load | components/mapmini/src/io_posix.c:22-25 | buffer_pos becomes 0; bytes_read becomes the bytes available at the file position, capped at the buffer size; the file position advances by that much |
| FileIo.FileBuffer.RemainingBytes | components/mapmini/src/io_posix.c:27-29 | equals bytes_read - buffer_pos when buffer_pos <= bytes_read, and the uint16_t wrap-around of it otherwise |
| FileIo.FileBuffer.RelativeReset | components/mapmini/src/io_posix.c:31-35 | the new window starts `seek` bytes before the old file position (unchanged when that is before the file start), with buffer_pos 0 and a fresh refill |
| FileIo.FileBuffer.Seek | components/mapmini/src/map.c:304 | the window is refilled at the target, which becomes the read position |
| FileIo.FileBuffer.Close | components/mapmini/src/map.c:311 | the file is closed |
| FileIo.FileBuffer.GetBytes | components/mapmini/src/map.c:196-197 | returns exactly the n bytes of the file at the read position, or fails exactly when they run past its end; bytes already in the window are taken without a refill |
| FileIo.FileBuffer.GetUint | components/mapmini/src/map.c:179-183 | returns the big-endian field at the read position and advances past it, or fails exactly when it runs past the end |
| FileIo.FileBuffer.GetInt | components/mapmini/src/map.c:185-190 | returns the signed big-endian field at the read position and advances past it |
| FileIo.FileBuffer.GetString | components/mapmini/src/map.c:196-197 | returns the length-prefixed string at the read position and advances past it |
| FileIo.FileBuffer.GetVbe | components/mapmini/src/map.c:324-330 | returns the VBE-U integer at the read position and advances past it; a read inside the window does not refill |
| Memory.TilesDisjoint | components/mapmini/src/memory.c:21-24 | blocks handed out back to back are ascending, pairwise disjoint and below the cursor |
| Memory.Arena.constructor | components/mapmini/src/memory.c:5 | the static region exists; nothing is usable yet |
| Memory.Arena.Init | components/mapmini/src/memory.c:7-11 | size becomes the request (at most the region's length), current 0, no blocks |
| Memory.Arena.Malloc | components/mapmini/src/memory.c:13-25 | fails exactly when current + size > arena size, leaving everything unchanged; otherwise returns the old current, advances current by exactly size, and records the block |
| Memory.OverflowsAsWritten | components/mapmini/src/memory.c:14 | the 32-bit test reports an overflow only when current + size really exceeds the arena size |
| Memory.Arena.Free | components/mapmini/src/memory.c:27-31 | returns the old current and resets it to 0; so a second call returns 0 |
| Memory.BlocksDisjoint | components/mapmini/src/memory.c:21-24 | the blocks allocated since the last reset are pairwise disjoint, ascending and inside [0, size) |
| Memory.CursorIsTotal | components/mapmini/src/memory.c:21-22 | the cursor is the total length of the blocks allocated since the last reset |
| Memory.WrappedRequestPasses | components/mapmini/src/memory.c:14 | with a 32-bit size_t, a request of 2^32 - 1 bytes passes the overflow test of a 16-byte arena |
| Memory.OverflowAgreesBelowWrap | components/mapmini/src/memory.c:14 | below 2^32 the compiled test agrees with current + size > arena size, both ways |
| Hal.Color | components/hagl/src/hagl_hal.c:39-41 | inverted red lands in bits 0-1, inverted green in bits 3-5, inverted blue in bits 6-7, and bit 2 is always clear |
| Hal.ColorInverted | components/hagl/src/hagl_hal.c:40 | white packs to 0 and black to 0xFB |
| Hal.ColorChannelsIndependent | components/hagl/src/hagl_hal.c:40 | changing one channel changes only that channel's bits |
| Hal.FrameBuffer.constructor | components/hagl/src/hagl_hal.c:13 | the buffer has DISPLAY_WIDTH * DISPLAY_HEIGHT bytes |
| Hal.FrameBuffer.PutPixel | components/hagl/src/hagl_hal.c:34-37 | exactly index DISPLAY_WIDTH*y0 + x0 gets the colour; every other byte is unchanged |
| Hal.FrameBuffer.HLine | components/hagl/src/hagl_hal.c:43-48 | exactly the `width` consecutive indices from DISPLAY_WIDTH*y0 + x0 get the colour, running into the next row if need be; nothing else changes |
| Hal.FrameBuffer.VLine | components/hagl/src/hagl_hal.c:50-55 | exactly the indices DISPLAY_WIDTH*(y0+y) + x0 for y < height get the colour; nothing else changes |
| WayRecord.KeptCount | components/mapmini/src/map.c:367-373 | the kept ways plus the skipped ones are all the calls |
| WayRecord.KeptMembers | components/mapmini/src/map.c:367-373 | a way is kept exactly when some call returned it without a skip |
| WayRecord.KeptAppend | components/mapmini/src/map.c:367-373 | the kept ways of two runs of calls are those of the first followed by those of the second |
| WayRecord.KeptWithoutSkips | components/mapmini/src/map.c:367-373 | without skips every call's way is kept, in call order |
| MapHeader.FixedFromHead | components/mapmini/src/map.c:179-200 | header size and version are the big-endian u32 at bytes 0 and 4, file size the u64 at 8, creation time the signed 64-bit field at 16, the four coordinates the signed 32-bit fields at 24, 28, 32, 36, the tile size the u16 at 40; projection and flags are those read after them |
| MapHeader.ParseFixed | components/mapmini/src/map.c:179-200 | the fixed part consumes 42 bytes, the projection string and the flag byte |
| MapHeader.ParseStart | components/mapmini/src/map.c:202-217 | the start position (two u32) is consumed only with flag 0x40 and is [0, 0] otherwise; the start zoom (u8) only with 0x20 and is 0 otherwise |
| MapHeader.ParseTexts | components/mapmini/src/map.c:219-241 | language, comment and created-by are each consumed only with flag 0x10, 0x08 or 0x04 and are empty otherwise |

| MapHeader.ParseOptional | components/mapmini/src/map.c:200-241 | the optional part consumes exactly the fields its flags switch on, and every field that is off takes its default |
| MapHeader.Names | components/mapmini/src/map.c:243-261 | exactly k length-prefixed names are read, consuming k length bytes plus their lengths |
| MapHeader.NamesFailurePersists | components/mapmini/src/map.c:247-261 | a name table that runs off the file stays short for every larger count |
| MapHeader.IntervalFields | components/mapmini/src/map.c:268-275 | base, minimal and maximal zoom are bytes 0, 1 and 2; sub-file start and size are the big-endian u64 at bytes 3..11 and 11..19; n_tiles_x/y are the tile-index differences of the bounding-box edges plus 1 |
| MapHeader.IntervalRecord | components/mapmini/src/map.c:267-275 | a zoom-interval record is read exactly when its 19 bytes (3 u8, 2 u64) are in the file, and consumes them |
| MapHeader.Intervals | components/mapmini/src/map.c:263-287 | k records consume 19*k bytes and yield k intervals |
| MapHeader.IntervalsDerived | components/mapmini/src/map.c:274-275 | every interval read carries the tile counts derived from the bounding box at its base zoom |
| MapHeader.IntervalsFailurePersists | components/mapmini/src/map.c:267-287 | an interval table that runs off the file stays short for every larger count |
| MapHeader.ParseTable | components/mapmini/src/map.c:243-261 | a tag table has fewer than 2^16 names and takes at least its two count bytes |
| MapHeader.ParseIntervalTable | components/mapmini/src/map.c:263-287 | a zoom-interval table has fewer than 256 records and takes at least its count byte |
| MapHeader.ParseHeader | components/mapmini/src/map.c:177-287 | a parsed header has a four-entry bounding box, tag tables below 2^16 entries and fewer than 256 zoom intervals |
| MapHeader.ReadSizes | components/mapmini/src/map.c:179-185 | header size, version, file size and creation date are read through the cursor as the 24 bytes they occupy |
| MapHeader.ReadBox | components/mapmini/src/map.c:187-193 | the bounding box and tile size are read through the cursor as the 18 bytes they occupy |
| MapHeader.HasMagic | components/mapmini/src/map.c:168 | holds exactly when the file has at least 20 bytes and they are "mapsforge binary OSM" |
| MapHeader.SizesOf | components/mapmini/src/map.c:179-185 | header size and version are below 2^32, file size below 2^64, creation time in the signed 64-bit range, and encoding them again gives the 24 bytes back |
| MapHeader.BoxOf | components/mapmini/src/map.c:187-193 | four coordinates in the signed 32-bit range and a tile size below 2^16, whose encoding gives the 18 bytes back |
| MapHeader.Coordinate | components/mapmini/src/map.c:187-190 | a coordinate lies in the signed 32-bit range and encodes back to its 4 bytes |
| MapHeader.SizesFromFields | components/mapmini/src/map.c:179-185 | the four fields read one after another take exactly 24 bytes and are SizesOf of them |
| MapHeader.BoxFromFields | components/mapmini/src/map.c:187-193 | the five fields read one after another take exactly 18 bytes and are BoxOf of them |
| MapHeader.ReadFixed | components/mapmini/src/map.c:179-200 | reading through the cursor yields ParseFixed at the read position |
| MapHeader.ReadOptUint | components/mapmini/src/map.c:202-217 | an optional integer is read only when its flag is set |
| MapHeader.ReadOptStr | components/mapmini/src/map.c:219-241 | an optional string is read only when its flag is set |
| MapHeader.ReadStart | components/mapmini/src/map.c:202-217 | reading through the cursor yields ParseStart |
| MapHeader.ReadTexts | components/mapmini/src/map.c:219-241 | reading through the cursor yields ParseTexts |
| MapHeader.ReadOptional | components/mapmini/src/map.c:200-241 | reading through the cursor yields ParseOptional |
| MapHeader.ReadNames | components/mapmini/src/map.c:247-261 | the name loop yields Names for the declared count |
| MapHeader.ReadInterval | components/mapmini/src/map.c:268-275 | one pass of the interval loop yields IntervalRecord |
| MapHeader.IntervalFromFields | components/mapmini/src/map.c:268-275 | the five fields of a record read one after another are IntervalRecord, with the derived tile counts |
| MapHeader.ReadIntervals | components/mapmini/src/map.c:263-287 | the interval loop yields Intervals for the declared count |
| MapHeader.ReadTable | components/mapmini/src/map.c:243-261 | reading a tag table through the cursor yields ParseTable |
| MapHeader.ReadIntervalTable | components/mapmini/src/map.c:263-287 | reading the zoom-interval table through the cursor yields ParseIntervalTable |
| MapHeader.ReadHeader | components/mapmini/src/map.c:175-287 | reading from byte 20 yields ParseHeader of the file, or fails exactly when it does |
| HeaderCodec.EncodeSizes | components/mapmini/src/map.c:179-185 | the sizes and creation time encode to exactly 24 bytes |
| HeaderCodec.EncodeBox | components/mapmini/src/map.c:187-193 | the bounding box and tile size encode to exactly 18 bytes |
| HeaderCodec.EncodeFixed | components/mapmini/src/map.c:179-200 | the fixed part encodes to 42 bytes, the length-prefixed projection and the flag byte |
| HeaderCodec.EncodeInterval | components/mapmini/src/map.c:268-272 | a zoom-interval record encodes to exactly 19 bytes |
| HeaderCodec.SizesRoundTrip | components/mapmini/src/map.c:179-185 | SizesOf of the encoded sizes gives back header size, version, file size and creation time |
| HeaderCodec.BoxRoundTrip | components/mapmini/src/map.c:187-193 | BoxOf of the encoded box gives back the four coordinates and the tile size |
| HeaderCodec.FixedHeadRoundTrip | components/mapmini/src/map.c:179-193 | FixedFromHead of the encoded sizes and box gives back every fixed field |
| HeaderCodec.FixedRoundTrip | components/mapmini/src/map.c:179-200 | ParseFixed of an encoded fixed part gives it back and ends right after it |
| HeaderCodec.OptUintRoundTrip | components/mapmini/src/map.c:202-217 | an optional integer encoded under its flag reads back, and takes no bytes when the flag is off |
| HeaderCodec.OptStrRoundTrip | components/mapmini/src/map.c:219-241 | an optional string encoded under its flag reads back, and takes no bytes when the flag is off |
| HeaderCodec.StartRoundTrip | components/mapmini/src/map.c:202-217 | ParseStart of the encoded start position and zoom gives them back |
| HeaderCodec.TextsRoundTrip | components/mapmini/src/map.c:219-241 | ParseTexts of the encoded language, comment and created-by gives them back |
| HeaderCodec.OptionalRoundTrip | components/mapmini/src/map.c:200-241 | ParseOptional of the encoded optional fields gives them back and ends right after them |
| HeaderCodec.NamesRoundTrip | components/mapmini/src/map.c:247-261 | Names of k encoded names gives them back, in order |
| HeaderCodec.TableRoundTrip | components/mapmini/src/map.c:243-261 | ParseTable of an encoded tag table gives its names back |
| HeaderCodec.IntervalFieldsRoundTrip | components/mapmini/src/map.c:268-275 | IntervalFields of an encoded record gives the interval back when its tile counts are the derived ones |
| HeaderCodec.IntervalRecordRoundTrip | components/mapmini/src/map.c:268-275 | IntervalRecord of an encoded record gives the interval back and ends 19 bytes on |
| HeaderCodec.IntervalsRoundTrip | components/mapmini/src/map.c:267-287 | Intervals of k encoded records gives them back, in order |
| HeaderCodec.IntervalTableRoundTrip | components/mapmini/src/map.c:263-287 | ParseIntervalTable of an encoded zoom-interval table gives its intervals back |
| HeaderCodec.HeaderAt | components/mapmini/src/map.c:175-287 | a header encoded at byte 20 parses back to itself and the reading ends right after it |
| HeaderCodec.HeaderRoundTrip | components/mapmini/src/map.c:168-287 | the magic followed by EncodeHeader(h) passes the magic test and parses back to h, for every header whose fields fit their widths and whose tile counts are the derived ones; the reading ends right after the encoding |
| MapTile.SelectInterval | components/mapmini/src/map.c:289-292 | picks the first interval with min_zoom < z < max_zoom; None exactly when no interval qualifies |
| MapTile.ScanIntervals | components/mapmini/src/map.c:289-292 | the loop stops at the first qualifying index; it yields n_zoom_intervals when none qualifies |
| MapTile.BoundaryZoomServedByNone | components/mapmini/src/map.c:291-292 | a zoom on the shared boundary of two adjacent intervals is served by neither |
| MapTile.TileIndex | components/mapmini/src/map.c:296-299 | t_lookup is a uint32_t |
| MapTile.TileIndexInsideGrid | components/mapmini/src/map.c:296-299 | for a tile inside the grid, t_lookup is y_ds*n_tiles_x + x_ds and lies inside the directory |
| MapTile.EntryAddress | components/mapmini/src/map.c:304 | the entry address is a uint64_t |
| MapTile.EntryAddressUnwrapped | components/mapmini/src/map.c:304 | without wrap-around the entry is at sub_file + 5*t_lookup |
| MapTile.IsWater | components/mapmini/src/map.c:308 | an entry is all water exactly when bit 39 is set |
| MapTile.TileOffset | components/mapmini/src/map.c:306 | the masked offset is below 2^39 |
| MapTile.DirectoryEntry | components/mapmini/src/map.c:301-308 | an entry built from a flag and an offset fits in 40 bits |
| MapTile.DirectoryEntrySplits | components/mapmini/src/map.c:301-308 | masking an entry gives back its water flag (bit 39) and its offset |
| MapTile.DirectoryEntryJoins | components/mapmini/src/map.c:301-308 | every 5-byte entry is its water flag joined with its offset |
| MapTile.ZoomRow | components/mapmini/src/map.c:324-325 | a zoom-table row (two VBE-U) consumes at least one byte |
| MapTile.ZoomCounts | components/mapmini/src/map.c:323-327 | k rows yield k (POI, way) pairs |
| MapTile.ZoomCountsFailurePersists | components/mapmini/src/map.c:323-327 | a zoom table that runs off the file stays short for every larger count |
| MapTile.ParseTileHeader | components/mapmini/src/map.c:319-330 | the tile header holds one row per zoom from min_zoom to max_zoom inclusive |
| MapTile.TileHeaderFromParts | components/mapmini/src/map.c:319-330 | the tile header is the zoom table followed by the first-way offset, and fails exactly when the offset does |
| MapTile.FirstWayFromParts | components/mapmini/src/map.c:324-334 | a zoom table followed by a first-way offset is a tile header, and when that header ends inside the window its first way is at the address computed from them |
| MapTile.Slot | components/mapmini/src/map.c:319-327 | a slot holds a uint16_t and stays 0 outside [min_zoom, max_zoom] |
| MapTile.WaysToDraw | components/mapmini/src/map.c:339 | ways_to_draw is the zoom-12 way count as uint16_t, and 0 when 12 lies outside the interval |
| MapTile.FirstWayAddressArithmetic | components/mapmini/src/map.c:330-334 | when the window started at sub_file + offset, the uint32_t sum sub_file + offset + buffer_pos + first_way_offset is the read position plus first_way_offset, modulo 2^32 |
| MapTile.ReadZoomRow | components/mapmini/src/map.c:324-325 | reading a row through the cursor yields ZoomRow |
| MapTile.StoreRow | components/mapmini/src/map.c:324-325 | the row of level z is stored, as uint16_t, in pois[z] and ways[z] |
| MapTile.ReadLevel | components/mapmini/src/map.c:323-327 | one pass of the zoom loop extends the rows read and the slots filled by one level |
| MapTile.ReadZoomTable | components/mapmini/src/map.c:319-327 | fresh 22-slot arrays hold the row of every level of the interval and 0 elsewhere; fails exactly when the table runs off the file |
| MapTile.SeekFirstWay | components/mapmini/src/map.c:330-337 | reads first_way_offset as a VBE-U at the read position, failing exactly when that read does, and seeks to the uint32_t first_way_file_addr; when the window started at the tile, that address is the end of the read plus first_way_offset |
| MapTile.ReadTileHeader | components/mapmini/src/map.c:317-337 | yields ParseTileHeader at sub_file + offset, fills pois[]/ways[] per level, and leaves the cursor at first_way_file_addr, which is the end of the tile header plus first_way_offset when the header lies inside the window |
| MapTile.DecodeWays | components/mapmini/src/map.c:367-373 | the loop ends with the kept ways of `declared` calls in slots 0.. in order, and returns ways[12] minus the skips |
| MapTile.DecodeWaysAsWritten | components/mapmini/src/map.c:367-373 | the loop as written: slots hold KeptAsWritten and the calls made are CallsAsWritten |
| MapTile.CallsAsWritten | components/mapmini/src/map.c:367-373 | the loop as written makes one call fewer than ways[12] exactly when ways[12] >= 2 and the first call skips, and otherwise all of them |
| MapTile.KeptAsWritten | components/mapmini/src/map.c:367-373 | the slots as written: the corrected kept list unless the first of two or more calls skips, in which case slot 0 holds the skipped way |
| MapTile.SkipAtSlotZeroKeepsSkippedWay | components/mapmini/src/map.c:369-371 | a skip in slot 0 followed by a kept way leaves the skipped way in the list and makes one call instead of two |
| MapLoad.ReturnCode | components/mapmini/src/map.c:161-388 | -1 exactly for a bad magic; a loaded tile returns its number of ways; the undefined paths return nothing |
| MapLoad.ReturnCodeCollisions | components/mapmini/src/map.c:163 | a failed open and a one-way tile both return 1; an all-water tile and a tile whose ways were all skipped both return 0 |
| MapLoad.TileSpec | components/mapmini/src/map.c:289-375 | a loaded tile has the kept ways of ways[12] get_way calls, ways[12] minus the skips of them; NoInterval exactly when no interval qualifies |
| MapLoad.ListSize | components/mapmini/src/map.c:340 | the size of the way list is 0 exactly when sizeof(way_prop) or ways_to_draw is 0, and otherwise at least each of them |
| MapLoad.LoadSpec | components/mapmini/src/map.c:159-388 | NotOpened exactly when the open fails; BadMagic exactly when the file does not start with the magic; a loaded tile keeps the ways of ways[12] calls minus the skips |
| MapLoad.NoWaysOutsideZoom12 | components/mapmini/src/map.c:339 | a tile read through an interval that does not cover zoom 12 loads no way and returns 0, like water |
| MapLoad.WindowMagic | components/mapmini/src/map.c:168 | comparing the first 20 bytes of the fresh window with the magic is the same as asking whether the file starts with it |
| MapLoad.ReadEntry | components/mapmini/src/map.c:296-305 | reads the 5-byte big-endian directory entry at sub_file + t_lookup*5 |
| MapLoad.LoadWays | components/mapmini/src/map.c:339-375 | allocates sizeof(way_prop)*ways_to_draw bytes from the arena; when that fails nothing changes; otherwise the list holds the ways the corrected loop keeps, the file is closed, and the list block at the old cursor is the one block added |
| MapLoad.LoadTile | components/mapmini/src/map.c:289-375 | yields TileSpec; water closes the file and allocates nothing; only a loaded tile moves the arena, by its way-list block |
| MapLoad.OpenMap | components/mapmini/src/map.c:160-170 | the file is open exactly when fopen succeeds; the magic test holds exactly when the file starts with the magic |
| MapLoad.LoadMap | components/mapmini/src/map.c:159-388 | yields LoadSpec of the file; a failed open leaves the file closed; a bad magic reads nothing after the magic; the arena grows only for a loaded tile, by its way-list block |
| MapLoad.LoadAfterMagic | components/mapmini/src/map.c:175-375 | reading from byte 20 on yields LoadSpec of the file, and the arena grows only for a loaded tile, by its way-list block |
| MapLoad.LoadSpecShortHeader | components/mapmini/src/map.c:177-287 | a header that runs off the file makes load_map a ShortRead |
| MapLoad.LoadSpecAfterHeader | components/mapmini/src/map.c:289-375 | once the header is read, what load_map does is TileSpec of that header |
| MapDraw.StyleOf | components/mapmini/src/map.c:53-130 | every case of the style switch has thickness 1 to 4 |
| MapDraw.StyleTableEntries | components/mapmini/src/map.c:54-107 | 7 gives thickness 4, 64 gives 2, 26 and 13 share a style, 5 and 255 have no case |
| MapDraw.FirstStyled | components/mapmini/src/map.c:52-132 | the index of the first tag with a case: every tag before it has none |
| MapDraw.StyleFor | components/mapmini/src/map.c:52-132 | the style of the first tag with a case, and black with thickness 1 when no tag has one |
| MapDraw.FindStyle | components/mapmini/src/map.c:49-132 | the scan returns the style of the first tag with a case, and black with thickness 1 when no tag has one |
| MapDraw.FirstStyledTagDecides | components/mapmini/src/map.c:52-132 | tags after the first styled one never change the style |
| MapDraw.UnstyledTagsIgnored | components/mapmini/src/map.c:52-132 | tags without a case in front of a list change nothing |
| MapDraw.ListOrderWins | components/mapmini/src/map.c:52-132 | the list order, not the table order, decides: [64, 7] draws with thickness 2 and [7, 64] with 4 |
| MapDraw.Int16 | components/mapmini/src/map.c:135-139 | the int16_t conversion lies in -32768..32767, agrees with the value modulo 2^16, and keeps values that fit |
| MapDraw.DrawWay | components/mapmini/src/map.c:47-144 | the segment loop issues exactly Segments of the way |
| MapDraw.Segments | components/mapmini/src/map.c:134-144 | a way of n > 1 nodes with a non-zero colour gets exactly n - 1 segments, and none otherwise; every segment has the way's thickness and its non-zero colour |
| MapDraw.SegmentsConnected | components/mapmini/src/map.c:134-139 | each segment starts where the previous one ends |
| MapDraw.UnstyledDrawsNothing | components/mapmini/src/map.c:49-144 | a way without a styled tag keeps black, thickness 1, and draws nothing when black packs to 0 |

## Left out

- Floating-point tile math (`long2tilex`, `lat2tiley`, `tilex2long`, `tiley2lat`), the fit scale, the mercator ratio and the cosf/sinf rotation in `g_draw_way` are not modelled. Tile indices come from a `TileMath` parameter, and a segment is recorded before rotation.
- `get_way`, `lon_to_x`, `lat_to_y`, `rgb332` and `draw_varthick_line` are not part of this model. `get_way` is a function of the call number. It therefore does not depend on the file position, and its own arena allocations are not modelled. `rgb332` is a packing parameter.
- The bodies of `get_uint*`, `get_int*`, `get_varint`, `get_vbe_uint`, `get_string`, `file_seek` and `file_close` are not part of this model. They are modelled as reads through the window that refill at the read position. Their byte orders follow the Mapsforge format: big-endian integers, and the first VBE-U byte carries the least significant seven bits.
- The window is at least 255 bytes (`MinBufferSize`), so one length-prefixed string always fits. FILE_READ_BUFFER_SIZE is not part of this model.
- A zoom-interval record is 19 bytes: three u8 zoom levels, then the big-endian u64 sub-file start and size.
- Reading past the end of the file, running off the interval table, a `max_zoom` of 22 or more, and a NULL way list are undefined in C. They are the outcomes `ShortRead`, `NoInterval`, `ZoomTableOverflow` and `ArenaOverflow`, and `ReturnCode` gives no value for them.
- The fixed-size buffers of the header struct (tag names, projection, comment, the `zoom_conf` array) are not modelled, nor their overflow by long strings or many entries. map.h is not part of this model.
- `n_tiles_x`/`n_tiles_y` are stored as computed, not narrowed to their C field type. map.h is not part of this model.
- MapTile.ReadTileHeader: it states first_way_file_addr as "end of the zoom table plus first_way_offset" only when the tile header lies inside the window brought by the seek to the tile. Otherwise buffer_pos no longer counts the bytes consumed, and only the uint32_t address actually sought is stated.
- MapLoad.LoadWays: sizeof(way_prop)*ways_to_draw is not wrapped to size_t. ways_to_draw is below 2^16, so the product wraps only for a way_prop of 64 KiB or more.
- MapLoad.LoadMap: on a bad magic the C code returns without closing the file. The model leaves it open too.
- MapLoad.LoadMap: the cursor's window starts zero-filled, where the C stack buffer is uninitialised. Because the magic has no zero byte, a file shorter than 20 bytes never passes the magic test.
- The `st` and `size` arguments of `load_map` are not modelled (they only reach `get_way` and the scale computation), nor are `xo` and `yo` (they are unused in `load_map`).
- `hagl_hal_init` and `hagl_hal_flush` are not modelled: they delegate to bitmap_init and display_update.
- Logging is not modelled.
- MapHeader.ParseHeader: its own contract states only the shape of a parsed header. What each field holds is stated by HeaderCodec.HeaderRoundTrip, for every header that has an encoding.
- MapLoad.TileSpec: uses the corrected way loop (Findings row 1, MapTile.DecodeWays). On a first-call skip with ways[12] >= 2 it keeps only the unskipped ways, where load_map leaves the skipped way in slot 0 after one call fewer. It states the arena growth as the way-list block alone; get_way's allocations are not modelled.
- MapLoad.LoadSpec: uses the corrected way loop of TileSpec (Findings row 1), and states the arena growth as the way-list block alone.
- MapLoad.LoadWays: decodes with the corrected loop (Findings row 1, MapTile.DecodeWays), and states the arena growth as the way-list block alone; get_way's allocations from a0 are not modelled.
- MapLoad.LoadTile: yields TileSpec, so it has the corrected way loop (Findings row 1) and the way-list block as its only arena growth.
- MapLoad.LoadAfterMagic: yields LoadSpec, so it has the corrected way loop (Findings row 1) and the way-list block as its only arena growth.
- MapLoad.LoadMap: yields LoadSpec, so it has the corrected way loop (Findings row 1) and the way-list block as its only arena growth.
- Hal.FrameBuffer.PutPixel: requires DISPLAY_WIDTH*y0 + x0 to lie inside the 130*130 buffer; hagl_hal.c:36 writes without a check.
- Hal.FrameBuffer.HLine: requires the run of width indices to lie inside the buffer; hagl_hal.c:46 writes without a check.
- Hal.FrameBuffer.VLine: requires every index DISPLAY_WIDTH*(y0+y) + x0 to lie inside the buffer; hagl_hal.c:53 writes without a check.

## Findings

| source | as written | input that shows it | evidently intended | confidence | as-written member | corrected member |
|---|---|---|---|---|---|---|
| components/mapmini/src/map.c:367-373 | a skip at w == 0 does not step w back, so w++ moves on to slot 1 while ways_to_draw still drops | ways[12] == 2; the first get_way skips, the second keeps way B | the list holds only the kept ways, [B], after two calls | not executed | MapTile.SkipAtSlotZeroKeepsSkippedWay | MapTile.DecodeWays |
| components/mapmini/src/map.c:289-297 | when no interval has min_zoom < z < max_zoom, z_ds == n_zoom_intervals and zoom_conf[z_ds] is read past the table | intervals (min 10, max 14) and (min 14, max 18), z = 14 | load_map fails cleanly when no interval serves z | not executed | MapTile.BoundaryZoomServedByNone | MapLoad.TileSpec |
| components/mapmini/src/memory.c:14 | current + size is a 32-bit size_t sum, so a huge request wraps and passes the overflow test | current 1, size 2^32 - 1, arena size 16 | any request beyond the free space fails | not executed | Memory.WrappedRequestPasses | Memory.Arena.Malloc |
