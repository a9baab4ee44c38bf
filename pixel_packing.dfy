// The pixel arithmetic both texture loaders share: premultiplying a colour
// by its alpha and packing it into the 32-bit texel layout the GPU expects
// (red in the low byte, then green, blue and alpha).

module PixelPacking {
  import opened Numerics

  /** A colour with straight (not yet premultiplied) alpha, one byte per channel. */
  datatype Color = Color(r: Byte, g: Byte, b: Byte, a: Byte)

  /** Four bytes as one 32-bit number, `b0` lowest. */
  function Bytes4(b0: Byte, b1: Byte, b2: Byte, b3: Byte): UInt32 {
    b0 + b1 * 0x100 + b2 * 0x1_0000 + b3 * 0x100_0000
  }

  /** Byte `k` (0 lowest) of a 32-bit number: the shift-and-mask the loaders and the writer use. */
  function ByteOf(v: UInt32, k: nat): Byte
    requires k < 4
  {
    if k == 0 then v % 0x100
    else if k == 1 then (v / 0x100) % 0x100
    else if k == 2 then (v / 0x1_0000) % 0x100
    else v / 0x100_0000
  }

  /** Shifting and masking takes the four bytes back out. */
  lemma SplitBytes(b0: Byte, b1: Byte, b2: Byte, b3: Byte)
    ensures var v := Bytes4(b0, b1, b2, b3);
      ByteOf(v, 0) == b0 && ByteOf(v, 1) == b1 && ByteOf(v, 2) == b2 && ByteOf(v, 3) == b3
  {
    var v := Bytes4(b0, b1, b2, b3);
    SplitAt(v, 0x100, b0, b1 + b2 * 0x100 + b3 * 0x1_0000);
    SplitAt(b1 + b2 * 0x100 + b3 * 0x1_0000, 0x100, b1, b2 + b3 * 0x100);
    SplitAt(v, 0x1_0000, b0 + b1 * 0x100, b2 + b3 * 0x100);
    SplitAt(b2 + b3 * 0x100, 0x100, b2, b3);
    SplitAt(v, 0x100_0000, b0 + b1 * 0x100 + b2 * 0x1_0000, b3);
  }

  /** Every 32-bit number is its four bytes put back together. */
  lemma JoinBytes(v: UInt32)
    ensures Bytes4(ByteOf(v, 0), ByteOf(v, 1), ByteOf(v, 2), ByteOf(v, 3)) == v
  {
    var q1 := v / 0x100;
    var q2 := q1 / 0x100;
    var q3 := q2 / 0x100;
    SplitAt(v, 0x1_0000, v % 0x100 + (q1 % 0x100) * 0x100, q2);
    SplitAt(v, 0x100_0000, v % 0x100 + (q1 % 0x100) * 0x100 + (q2 % 0x100) * 0x1_0000, q3);
  }

  /**
   * `(uint)(c * alpha / 255f)`. The quotient is never within one 255th of
   * the next integer, far more than a single-precision rounding step below
   * 256, so the float division truncates to the exact floor.
   */
  function Premultiply(c: Byte, alpha: Byte): Byte {
    ProductBounds(c, alpha);
    c * alpha / 0xFF
  }

  lemma ProductBounds(c: Byte, alpha: Byte)
    ensures 0 <= c * alpha <= c * 0xFF && c * alpha <= 0xFF * alpha
  {
    assert c * (0xFF - alpha) >= 0;
    assert (0xFF - c) * alpha >= 0;
  }

  /**
   * A premultiplied channel is the floor of c·a/255: never above the channel
   * nor above alpha (so it stays inside its byte), the channel itself at full
   * alpha and zero at zero alpha.
   */
  lemma PremultiplyBounds(c: Byte, alpha: Byte)
    ensures var p := Premultiply(c, alpha);
      && p * 0xFF <= c * alpha < (p + 1) * 0xFF
      && p <= c && p <= alpha
      && (alpha == 0xFF ==> p == c)
      && (alpha == 0 ==> p == 0)
  {
    var p := Premultiply(c, alpha);
    ProductBounds(c, alpha);
    SplitAt(c * 0xFF, 0xFF, 0, c);
    SplitAt(0xFF * alpha, 0xFF, 0, alpha);
  }

  /** Every colour channel multiplied by alpha; alpha itself is kept. */
  function PremultiplyColor(c: Color): Color {
    Color(Premultiply(c.r, c.a), Premultiply(c.g, c.a), Premultiply(c.b, c.a), c.a)
  }

  /** `alpha << 24 | blue << 16 | green << 8 | red`: the bytes do not overlap, so OR is addition. */
  function Pack(c: Color): UInt32 {
    Bytes4(c.r, c.g, c.b, c.a)
  }

  /** The texel a loader stores for a source pixel. */
  function LoadedPixel(c: Color): UInt32 {
    Pack(PremultiplyColor(c))
  }

  /** A loaded texel carries alpha unchanged in its top byte and channels no larger than alpha below it. */
  lemma LoadedPixelBytes(c: Color)
    ensures var t := LoadedPixel(c);
      && ByteOf(t, 3) == c.a
      && ByteOf(t, 0) <= c.a && ByteOf(t, 1) <= c.a && ByteOf(t, 2) <= c.a
      && ByteOf(t, 0) <= c.r && ByteOf(t, 1) <= c.g && ByteOf(t, 2) <= c.b
      && (c.a == 0xFF ==> t == Pack(c))
      && (c.a == 0 ==> t == 0)
  {
    var p := PremultiplyColor(c);
    SplitBytes(p.r, p.g, p.b, p.a);
    PremultiplyBounds(c.r, c.a);
    PremultiplyBounds(c.g, c.a);
    PremultiplyBounds(c.b, c.a);
  }
}
