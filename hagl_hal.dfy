/**
 * The frame-buffer HAL of components/hagl/src/hagl_hal.c: an 8-bit colour
 * packing and direct writes into a DisplayWidth x DisplayHeight byte buffer.
 */
module Hal {

  /** DISPLAY_WIDTH, DISPLAY_HEIGHT (components/hagl/include/hagl_hal.h) */
  const DisplayWidth: int := 130
  const DisplayHeight: int := 130

  /**
   * hagl_hal_color: the three channels are inverted and their top bits packed
   * as bits 0-1 (red), 3-5 (green) and 6-7 (blue); bit 2 is always clear.
   */
  function Color(r: bv8, g: bv8, b: bv8): (c: bv8)
    ensures c & 0x04 == 0
    ensures c & 0x03 == (!r) >> 6
    ensures (c >> 3) & 0x07 == (!g) >> 5
    ensures c >> 6 == (!b) >> 6
  {
    (((255 - r) & 0xe0) >> 6) | (((255 - g) & 0xe0) >> 2) | ((255 - b) & 0xc0)
  }

  /** White packs to 0 and black to 0xFB: the channels are inverted. */
  lemma ColorInverted()
    ensures Color(255, 255, 255) == 0
    ensures Color(0, 0, 0) == 0xFB
  {
  }

  /** Each channel reaches only its own bits of the packed colour. */
  lemma ColorChannelsIndependent(r: bv8, g: bv8, b: bv8, r': bv8, g': bv8, b': bv8)
    ensures Color(r, g, b) & 0x03 == Color(r, g', b') & 0x03
    ensures Color(r, g, b) & 0x38 == Color(r', g, b') & 0x38
    ensures Color(r, g, b) & 0xC0 == Color(r', g', b) & 0xC0
  {
  }

  /** Index of pixel (x, y) in the row-major buffer. */
  function PixelIndex(x: int, y: int): int
  {
    DisplayWidth * y + x
  }

  /** True when index i is the y-th pixel below (x0, y0) for some y < height. */
  predicate OnVLine(i: int, x0: int, y0: int, height: nat)
  {
    var d := i - PixelIndex(x0, y0);
    0 <= d && d % DisplayWidth == 0 && d / DisplayWidth < height
  }

  /** buffer1, the frame the HAL draws into. */
  class FrameBuffer {
    const pixels: array<bv8>

    constructor ()
      ensures fresh(pixels) && pixels.Length == DisplayWidth * DisplayHeight
    {
      pixels := new bv8[DisplayWidth * DisplayHeight];
    }

    /** hagl_hal_put_pixel: exactly index DisplayWidth * y0 + x0 changes; there is no clipping. */
    method PutPixel(x0: int, y0: int, color: bv8)
      requires 0 <= PixelIndex(x0, y0) < pixels.Length
      modifies pixels
      ensures forall i :: 0 <= i < pixels.Length ==>
                pixels[i] == if i == PixelIndex(x0, y0) then color else old(pixels[i])
    {
      pixels[PixelIndex(x0, y0)] := color;
    }

    /**
     * hagl_hal_hline: exactly the `width` consecutive indices from
     * DisplayWidth * y0 + x0 change; a long line runs on into the next row.
     */
    method HLine(x0: int, y0: int, width: nat, color: bv8)
      requires 0 <= PixelIndex(x0, y0) && PixelIndex(x0, y0) + width <= pixels.Length
      modifies pixels
      ensures forall i :: 0 <= i < pixels.Length ==>
                pixels[i] == if PixelIndex(x0, y0) <= i < PixelIndex(x0, y0) + width then color else old(pixels[i])
    {
      var start := PixelIndex(x0, y0);
      for x := 0 to width
        invariant forall i :: 0 <= i < pixels.Length ==>
                    pixels[i] == if start <= i < start + x then color else old(pixels[i])
      {
        pixels[start + x] := color;
      }
    }

    /**
     * hagl_hal_vline: exactly the indices DisplayWidth * (y0 + y) + x0 for
     * y < height change, one row apart.
     */
    method VLine(x0: int, y0: int, height: nat, color: bv8)
      requires 0 <= PixelIndex(x0, y0)
      requires height > 0 ==> PixelIndex(x0, y0 + height - 1) < pixels.Length
      modifies pixels
      ensures forall i :: 0 <= i < pixels.Length ==>
                pixels[i] == if OnVLine(i, x0, y0, height) then color else old(pixels[i])
    {
      for y := 0 to height
        invariant forall i :: 0 <= i < pixels.Length ==>
                    pixels[i] == if OnVLine(i, x0, y0, y) then color else old(pixels[i])
      {
        pixels[PixelIndex(x0, y0 + y)] := color;
        forall i | 0 <= i < pixels.Length
          ensures OnVLine(i, x0, y0, y + 1) <==> OnVLine(i, x0, y0, y) || i == PixelIndex(x0, y0 + y)
        {
          VLineStep(i, x0, y0, y);
        }
      }
    }
  }

  lemma VLineStep(i: int, x0: int, y0: int, y: nat)
    ensures OnVLine(i, x0, y0, y + 1) <==> OnVLine(i, x0, y0, y) || i == PixelIndex(x0, y0 + y)
  {
    var d := i - PixelIndex(x0, y0);
    assert PixelIndex(x0, y0 + y) - PixelIndex(x0, y0) == DisplayWidth * y;
    if 0 <= d && d % DisplayWidth == 0 {
      assert d == DisplayWidth * (d / DisplayWidth);
    }
  }
}
