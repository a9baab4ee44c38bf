// Texture2D.FromStream on System.Drawing: the bitmap is locked as 32-bit
// ARGB and each of its pixels, in buffer order, is premultiplied and
// repacked into the texel layout.

module TextureSystemDrawing {
  import opened Wrappers
  import opened Numerics
  import opened PixelPacking
  import TextureBigGustave

  /** Format32bppArgb: alpha in the top byte, then red, green, and blue in the low byte. */
  function FromArgb(v: UInt32): Color {
    Color(ByteOf(v, 2), ByteOf(v, 1), ByteOf(v, 0), ByteOf(v, 3))
  }

  /** The ARGB word of a colour, as the bitmap stores it. */
  function ToArgb(c: Color): UInt32 {
    Bytes4(c.b, c.g, c.r, c.a)
  }

  /** The ARGB layout and the colour are interchangeable, both ways round. */
  lemma ArgbRoundTrip(c: Color, v: UInt32)
    ensures FromArgb(ToArgb(c)) == c
    ensures ToArgb(FromArgb(v)) == v
  {
    SplitBytes(c.b, c.g, c.r, c.a);
    JoinBytes(v);
  }

  /** One buffer word: its channels premultiplied and swapped into the texel layout. */
  function ConvertTexel(argb: UInt32): UInt32 {
    LoadedPixel(FromArgb(argb))
  }

  /** The texels made from the locked buffer, one per word, in buffer order. */
  function Texels(byteData: seq<UInt32>): seq<UInt32> {
    seq(|byteData|, i requires 0 <= i < |byteData| => ConvertTexel(byteData[i]))
  }

  /**
   * PlatformFromStream after the bitmap has been decoded and locked:
   * `byteData` is the locked buffer, `width` × `height` words. An empty
   * bitmap fails where the loop pins element 0 of the empty texel array.
   */
  method PlatformFromStream(byteData: seq<UInt32>, width: nat, height: nat) returns (r: Result<array<UInt32>, Exception>)
    requires |byteData| == width * height
    ensures r.Failure? <==> width * height == 0
    ensures r.Failure? ==> r.error == IndexOutOfRangeException
    ensures r.Success? ==> fresh(r.value) && r.value[..] == Texels(byteData)
  {
    var textureDataLength := width * height;
    var textureData := new UInt32[textureDataLength];
    if textureData.Length == 0 {
      return Failure(IndexOutOfRangeException);
    }
    for i := 0 to textureDataLength
      invariant forall k :: 0 <= k < i ==> textureData[k] == ConvertTexel(byteData[k])
    {
      var alpha := ByteOf(byteData[i], 3);
      var red := ByteOf(byteData[i], 2);
      var green := ByteOf(byteData[i], 1);
      var blue := ByteOf(byteData[i], 0);

      red := Premultiply(red, alpha);
      green := Premultiply(green, alpha);
      blue := Premultiply(blue, alpha);

      textureData[i] := Bytes4(red, green, blue, alpha);
    }
    assert textureData[..] == Texels(byteData);
    return Success(textureData);
  }

  /** For the same pixel, both loaders store the same texel. */
  lemma SameTexel(c: Color)
    ensures ConvertTexel(ToArgb(c)) == LoadedPixel(c)
  {
    ArgbRoundTrip(c, 0);
  }

  /**
   * For the same image, the System.Drawing loader and the BigGustave loader
   * produce the same texel array: word k of the locked buffer holds pixel
   * (k mod width, k div width), which is where the BigGustave loop puts it.
   */
  lemma LoadersAgree(byteData: seq<UInt32>, getPixel: (int, int) -> Color, width: nat, height: nat)
    requires width > 0 && |byteData| == height * width
    requires forall k :: 0 <= k < |byteData| ==> byteData[k] == ToArgb(getPixel(k % width, k / width))
    ensures Texels(byteData) == TextureBigGustave.Texels(getPixel, width, height)
  {
    var gustave := TextureBigGustave.Texels(getPixel, width, height);
    forall k | 0 <= k < |byteData|
      ensures Texels(byteData)[k] == gustave[k]
    {
      SameTexel(getPixel(k % width, k / width));
    }
  }
}
