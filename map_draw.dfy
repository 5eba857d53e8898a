/**
 * The style lookup and the segment loop of g_draw_way
 * (components/mapmini/src/map.c): the way's tag ids are scanned in list
 * order and the first one the style table knows fixes colour and thickness;
 * a way of n > 1 nodes is then drawn as n - 1 segments between consecutive
 * nodes, each shifted so that the display centre is the origin, unless the
 * packed colour is 0.
 *
 * rgb332, the rotation and draw_varthick_line are not part of this model:
 * the packing is a parameter `pack`, and a segment is recorded with the
 * centred int16 end points that are rotated and handed to the line drawer.
 */
module MapDraw {
  import opened Wrappers
  import opened Wire
  import opened WayRecord
  import Hal

  /** An rgb332(r, g, b) call, before packing. */
  datatype Rgb = Rgb(r: Byte, g: Byte, b: Byte)

  /** Colour and line thickness of a way. */
  datatype Style = Style(colour: Rgb, thickness: nat)

  /** What cl and th hold when no tag has a case: black, thickness 1. */
  const Unstyled: Style := Style(Rgb(0, 0, 0), 1)

  /** The switch over one tag id: its style, or None for ids it has no case for. */
  function StyleOf(tag: Byte): (s: Option<Style>)
    ensures s.Some? ==> 1 <= s.value.thickness <= 4
  {
    match tag
    case 26 | 13 => Some(Style(Rgb(0xE5, 0xE0, 0xC2), 1))    // pedestrian, steps
    case 3 | 4 => Some(Style(Rgb(0xAA, 0x00, 0x00), 1))      // footway, path
    case 2 => Some(Style(Rgb(0xFF, 0xFA, 0xF2), 1))          // track
    case 14 => Some(Style(Rgb(0xFF, 0xF2, 0xDE), 1))         // cycleway
    case 32 => Some(Style(Rgb(0xD3, 0xCB, 0x98), 1))         // bridleway
    case 0 => Some(Style(Rgb(0xFF, 0xFF, 0xFF), 1))          // service
    case 28 => Some(Style(Rgb(0xD0, 0xD0, 0xD0), 1))         // construction
    case 64 => Some(Style(Rgb(0xD0, 0xD0, 0xD0), 2))         // road
    case 1 | 6 | 30 => Some(Style(Rgb(0xFF, 0xFF, 0xFF), 2)) // residential, unclassified, living street
    case 8 | 35 => Some(Style(Rgb(0xFF, 0xFF, 0x90), 3))     // tertiary (link)
    case 12 | 34 => Some(Style(Rgb(0xBB, 0x85, 0x0F), 3))    // secondary (link)
    case 7 => Some(Style(Rgb(0xFE, 0x85, 0x0C), 4))          // primary
    case 27 => Some(Style(Rgb(0xFE, 0x85, 0x0C), 3))         // primary link
    case 11 => Some(Style(Rgb(0x80, 0x00, 0x40), 4))         // trunk
    case 24 => Some(Style(Rgb(0x80, 0x00, 0x40), 3))         // trunk link
    case 21 | 23 => Some(Style(Rgb(0x40, 0x00, 0x00), 3))    // motorway (link)
    case _ => None
  }

  /** The table entries the properties single out. */
  lemma StyleTableEntries()
    ensures StyleOf(7).Some? && StyleOf(7).value.thickness == 4
    ensures StyleOf(64).Some? && StyleOf(64).value.thickness == 2
    ensures StyleOf(26).Some? && StyleOf(26) == StyleOf(13)
    ensures StyleOf(5).None? && StyleOf(255).None?
  {
  }

  /** Index of the first tag the table knows, |tags| when there is none. */
  function FirstStyled(tags: seq<Byte>): (i: nat)
    ensures i <= |tags|
    ensures i < |tags| ==> StyleOf(tags[i]).Some?
    ensures forall j :: 0 <= j < i ==> StyleOf(tags[j]).None?
  {
    if tags == [] then 0
    else if StyleOf(tags[0]).Some? then 0
    else 1 + FirstStyled(tags[1..])
  }

  /**
   * The style g_draw_way draws a way with the given tag list in: that of the
   * first tag the table knows, and black with thickness 1 when it knows none.
   */
  function StyleFor(tags: seq<Byte>): (style: Style)
    ensures forall i :: 0 <= i < |tags| && StyleOf(tags[i]).Some? &&
                          (forall j :: 0 <= j < i ==> StyleOf(tags[j]).None?)
                        ==> style == StyleOf(tags[i]).value
    ensures (forall i :: 0 <= i < |tags| ==> StyleOf(tags[i]).None?) ==> style == Unstyled
  {
    var i := FirstStyled(tags);
    if i < |tags| then StyleOf(tags[i]).value else Unstyled
  }

  /**
   * Lines 52-132: scan the tags in list order and stop at the first one with
   * a case (the goto tag_found).
   */
  method FindStyle(tags: seq<Byte>) returns (style: Style)
    ensures style == StyleFor(tags)
    ensures (exists t :: 0 <= t < |tags| && StyleOf(tags[t]).Some?) || style == Unstyled
  {
    style := Unstyled;
    var t := 0;
    while t < |tags|
      invariant t <= |tags|
      invariant forall j :: 0 <= j < t ==> StyleOf(tags[j]).None?
    {
      var s := StyleOf(tags[t]);
      if s.Some? {
        return s.value;
      }
      t := t + 1;
    }
  }

  /**
   * The first styled tag decides, whatever follows it: the tag list's order
   * and not the table's order picks the style.
   */
  lemma {:induction false} FirstStyledTagDecides(tags: seq<Byte>, rest: seq<Byte>)
    requires exists t :: 0 <= t < |tags| && StyleOf(tags[t]).Some?
    ensures StyleFor(tags + rest) == StyleFor(tags)
  {
    var t :| 0 <= t < |tags| && StyleOf(tags[t]).Some?;
    var i, k := FirstStyled(tags), FirstStyled(tags + rest);
    assert i <= t;
    assert (tags + rest)[i] == tags[i];
    assert k <= i;
  }

  /** Unstyled tags in front of a list change nothing. */
  lemma {:induction false} UnstyledTagsIgnored(skipped: seq<Byte>, tags: seq<Byte>)
    requires forall j :: 0 <= j < |skipped| ==> StyleOf(skipped[j]).None?
    ensures FirstStyled(skipped + tags) == |skipped| + FirstStyled(tags)
    ensures StyleFor(skipped + tags) == StyleFor(tags)
  {
    if skipped != [] {
      assert (skipped + tags)[0] == skipped[0];
      assert (skipped + tags)[1..] == skipped[1..] + tags;
      UnstyledTagsIgnored(skipped[1..], tags);
    }
    var i := FirstStyled(tags);
    if i < |tags| {
      assert (skipped + tags)[|skipped| + i] == tags[i];
    }
  }

  /** Two styled tags in either order: the one listed first wins. */
  lemma ListOrderWins()
    ensures StyleFor([64, 7]).thickness == 2
    ensures StyleFor([7, 64]).thickness == 4
    ensures StyleFor([5, 9, 7]).thickness == 4
    ensures StyleFor([5, 9]) == Unstyled
  {
    assert FirstStyled([64, 7]) == 0 && FirstStyled([7, 64]) == 0;
    assert [5, 9, 7][1..] == [9, 7] && [9, 7][1..] == [7];
    assert [5, 9][1..] == [9] && [9][1..] == [];
  }

  /** The conversion to int16_t: the value modulo 2^16, in -32768 .. 32767. */
  function Int16(v: int): (r: int)
    ensures -0x8000 <= r < 0x8000
    ensures (v - r) % U16 == 0
    ensures -0x8000 <= v < 0x8000 ==> r == v
  {
    (v + 0x8000) % U16 - 0x8000
  }

  /** One draw_varthick_line call, before rotation: centred end points, thickness and packed colour. */
  datatype Segment = Segment(x0: int, y0: int, x1: int, y1: int, thickness: nat, colour: Byte)

  /** Lines 135-139: node p shifted by the offset and centred on the display, as int16_t. */
  function Centred(p: Point, xo: int, yo: int): (Point)
  {
    Point(Int16(xo + p.x - Hal.DisplayWidth / 2), Int16(yo + p.y - Hal.DisplayHeight / 2))
  }

  /** The segment from node i to node i + 1. */
  function SegmentAt(coords: seq<Point>, i: nat, xo: int, yo: int, style: Style, colour: Byte): Segment
    requires i + 1 < |coords|
  {
    var a, b := Centred(coords[i], xo, yo), Centred(coords[i + 1], xo, yo);
    Segment(a.x, a.y, b.x, b.y, style.thickness, colour)
  }

  /**
   * The segments g_draw_way issues for a way, in order: n - 1 of them for a
   * way of n > 1 nodes whose colour packs to non-zero, none otherwise, and
   * every one in the way's thickness and packed colour.
   */
  function Segments(way: Way, xo: int, yo: int, pack: Rgb -> Byte): (segs: seq<Segment>)
    ensures var n, colour := |way.coords|, pack(StyleFor(way.tagIds).colour);
            |segs| == if n > 1 && colour != 0 then n - 1 else 0
    ensures forall s :: s in segs ==>
              s.thickness == StyleFor(way.tagIds).thickness && s.colour == pack(StyleFor(way.tagIds).colour) != 0
  {
    var style := StyleFor(way.tagIds);
    var colour := pack(style.colour);
    if |way.coords| > 1 && colour != 0 then
      seq(|way.coords| - 1, (i: int) requires 0 <= i < |way.coords| - 1 =>
        SegmentAt(way.coords, i, xo, yo, style, colour))
    else []
  }

  /**
   * g_draw_way without the rotation: `pack` stands for rgb332. The loop runs
   * nodes - 1 times and issues a segment on each pass when the colour is not 0.
   */
  method DrawWay(way: Way, xo: int, yo: int, pack: Rgb -> Byte) returns (segments: seq<Segment>)
    ensures segments == Segments(way, xo, yo, pack)
  {
    segments := [];
    var nodes := |way.coords|;
    if nodes > 1 {
      var style := FindStyle(way.tagIds);
      var colour := pack(style.colour);
      var i := 0;
      while i < nodes - 1
        invariant i <= nodes - 1
        invariant colour == 0 ==> segments == []
        invariant colour != 0 ==>
                    |segments| == i &&
                    (forall k :: 0 <= k < i ==> segments[k] == SegmentAt(way.coords, k, xo, yo, style, colour))
      {
        var a, b := Centred(way.coords[i], xo, yo), Centred(way.coords[i + 1], xo, yo);
        if colour != 0 {
          segments := segments + [Segment(a.x, a.y, b.x, b.y, style.thickness, colour)];
        }
        i := i + 1;
      }
    }
  }

  /** The segments form one polyline: each starts where the one before ends. */
  lemma SegmentsConnected(way: Way, xo: int, yo: int, pack: Rgb -> Byte, i: nat)
    requires i + 1 < |Segments(way, xo, yo, pack)|
    ensures var segs := Segments(way, xo, yo, pack);
            segs[i].x1 == segs[i + 1].x0 && segs[i].y1 == segs[i + 1].y0
  {
  }

  /**
   * A way none of whose tags has a case keeps black, thickness 1, and when
   * black packs to 0 nothing is drawn for it.
   */
  lemma UnstyledDrawsNothing(way: Way, xo: int, yo: int, pack: Rgb -> Byte)
    requires forall j :: 0 <= j < |way.tagIds| ==> StyleOf(way.tagIds[j]).None?
    requires pack(Rgb(0, 0, 0)) == 0
    ensures StyleFor(way.tagIds) == Unstyled
    ensures Segments(way, xo, yo, pack) == []
  {
  }
}
