// Texture2D.FromStream on the BigGustave PNG decoder: every pixel of the
// decoded image, row by row, is premultiplied and packed into the texel
// array handed to SetData.

module TextureBigGustave {
  import opened Wrappers
  import opened Numerics
  import opened PixelPacking

  /** The texels of a `width` × `height` image, row-major: texel `k` is pixel (k mod width, k div width). */
  function Texels(getPixel: (int, int) -> Color, width: nat, height: nat): (texels: seq<UInt32>)
    requires width > 0
  {
    seq(height * width, k => TexelAtOffset(getPixel, width, k))
  }

  /** The texel at offset `k` of the row-major array: pixel (k mod width, k div width). */
  function TexelAtOffset(getPixel: (int, int) -> Color, width: nat, k: int): UInt32
    requires width > 0
  {
    LoadedPixel(getPixel(k % width, k / width))
  }

  /** There is one texel per pixel, and pixel (x, y) is at index y·width + x. */
  lemma TexelAt(getPixel: (int, int) -> Color, width: nat, height: nat, x: int, y: int)
    requires width > 0 && 0 <= x < width && 0 <= y < height
    ensures |Texels(getPixel, width, height)| == height * width
    ensures 0 <= y * width + x < height * width
    ensures Texels(getPixel, width, height)[y * width + x] == LoadedPixel(getPixel(x, y))
  {
    var k := y * width + x;
    RowInside(x, y, width, height);
    SplitAt(k, width, x, y);
    assert Texels(getPixel, width, height)[k] == TexelAtOffset(getPixel, width, k);
  }

  /** Position x of row y lies before the end of a `height`-row image. */
  lemma RowInside(x: int, y: int, width: int, height: int)
    requires 0 <= x < width && 0 <= y < height
    ensures 0 <= y * width + x < height * width
  {
    MulMono(y + 1, height, width);
    MulMono(0, y, width);
  }

  /**
   * PlatformFromStream after the PNG has been opened: `getPixel` is
   * `png.GetPixel`. An empty image fails where the loop pins element 0 of the
   * empty texel array.
   */
  method PlatformFromStream(getPixel: (int, int) -> Color, width: nat, height: nat)
    returns (r: Result<array<UInt32>, Exception>)
    ensures r.Failure? <==> height * width == 0
    ensures r.Failure? ==> r.error == IndexOutOfRangeException
    ensures r.Success? ==> fresh(r.value) && r.value[..] == Texels(getPixel, width, height)
  {
    var textureData := new UInt32[height * width];
    if textureData.Length == 0 {
      return Failure(IndexOutOfRangeException);
    }
    var pData := 0;
    var y := 0;
    while y < height
      invariant 0 <= y <= height && pData == y * width && pData <= textureData.Length
      invariant forall k :: 0 <= k < pData ==> textureData[k] == TexelAtOffset(getPixel, width, k)
    {
      pData := CopyRow(textureData, getPixel, width, height, y, pData);
      y := y + 1;
    }
    assert textureData[..] == Texels(getPixel, width, height);
    return Success(textureData);
  }

  /** The inner loop: row `y`, pixel by pixel, through the advancing pointer `pData`. */
  method CopyRow(textureData: array<UInt32>, getPixel: (int, int) -> Color, width: nat, height: nat, y: nat, pData: nat)
    returns (end: nat)
    requires y < height && textureData.Length == height * width && pData == y * width
    requires forall k :: 0 <= k < pData ==> textureData[k] == TexelAtOffset(getPixel, width, k)
    modifies textureData
    ensures end == pData + width && end <= textureData.Length
    ensures forall k :: 0 <= k < end ==> textureData[k] == TexelAtOffset(getPixel, width, k)
  {
    end := pData;
    MulMono(y, height, width);
    var x := 0;
    while x < width
      invariant 0 <= x <= width && end == y * width + x && end <= textureData.Length
      invariant forall k :: 0 <= k < end ==> textureData[k] == TexelAtOffset(getPixel, width, k)
    {
      var pixel := getPixel(x, y);
      var alpha, red, green, blue := pixel.a, pixel.r, pixel.g, pixel.b;
      red := Premultiply(red, alpha);
      green := Premultiply(green, alpha);
      blue := Premultiply(blue, alpha);
      var pixelData := Bytes4(red, green, blue, alpha);
      RowInside(x, y, width, height);
      SplitAt(end, width, x, y);
      textureData[end] := pixelData;
      end := end + 1;
      x := x + 1;
    }
    MulMono(y + 1, height, width);
  }
}
