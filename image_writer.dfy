// ImageWriter on BigGustave: texels are unpacked into a PNG builder's pixel
// grid, and SaveAsImage checks its arguments before anything is written.

module ImageWriting {
  import opened Wrappers
  import opened Numerics
  import opened PixelPacking

  datatype ImageWriterFormat = Jpg | Png

  /** A texel's bytes as a colour: red in bits 0-7, green 8-15, blue 16-23, alpha 24-31. */
  function Unpack(v: UInt32): Color {
    Color(ByteOf(v, 0), ByteOf(v, 1), ByteOf(v, 2), ByteOf(v, 3))
  }

  /** Unpacking inverts the loaders' packing, and every texel is the packing of its unpacking. */
  lemma UnpackPack(c: Color, v: UInt32)
    ensures Unpack(Pack(c)) == c
    ensures Pack(Unpack(v)) == v
  {
    SplitBytes(c.r, c.g, c.b, c.a);
    JoinBytes(v);
  }

  /**
   * Saving a loaded texture writes the premultiplied colours back, so an
   * opaque pixel comes back as it was loaded.
   */
  lemma SaveAfterLoad(c: Color)
    ensures Unpack(LoadedPixel(c)) == PremultiplyColor(c)
    ensures c.a == 0xFF ==> Unpack(LoadedPixel(c)) == c
  {
    UnpackPack(PremultiplyColor(c), 0);
    PremultiplyBounds(c.r, c.a);
    PremultiplyBounds(c.g, c.a);
    PremultiplyBounds(c.b, c.a);
  }

  /** The offset of row `y` in rows `width` texels long: y·width, as RowStartIsProduct shows. */
  function RowStart(y: nat, width: nat): nat {
    if y == 0 then 0 else RowStart(y - 1, width) + width
  }

  lemma {:induction false} RowStartIsProduct(y: nat, width: nat)
    ensures RowStart(y, width) == y * width
  {
    if y > 0 {
      RowStartIsProduct(y - 1, width);
      assert (y - 1) * width + width == y * width;
    }
  }

  /** A whole row `y` of a `height`-row image lies inside its texels. */
  lemma RowFits(y: nat, width: nat, height: nat)
    requires y < height
    ensures RowStart(y, width) + width <= height * width
  {
    RowStartIsProduct(y, width);
    MulMono(y + 1, height, width);
  }

  /** Pixels 0..upTo-1 of row `y` hold the unpacked texels of that row. */
  ghost predicate RowUnpacked(builder: array2<Color>, textureData: seq<UInt32>, width: nat, y: nat, upTo: nat)
    reads builder
  {
    && upTo <= builder.Length0 && y < builder.Length1
    && RowStart(y, width) + upTo <= |textureData|
    && forall x :: 0 <= x < upTo ==> builder[x, y] == Unpack(textureData[x + RowStart(y, width)])
  }

  /** Rows 0..rows-1 hold the unpacked texels: pixel (x, y) is texel x + y·width. */
  ghost predicate Unpacked(builder: array2<Color>, textureData: seq<UInt32>, width: nat, rows: nat)
    reads builder
  {
    forall y :: 0 <= y < rows ==> RowUnpacked(builder, textureData, width, y, width)
  }

  /**
   * CreateFromPixelData: a `width` × `height` builder whose pixel (x, y) is
   * texel x + y·width unpacked. The callers pass the texture's own data, one
   * texel per pixel.
   */
  method CreateFromPixelData(textureData: seq<UInt32>, width: nat, height: nat) returns (builder: array2<Color>)
    requires width > 0 && height > 0 && |textureData| == height * width
    ensures fresh(builder) && builder.Length0 == width && builder.Length1 == height
    ensures Unpacked(builder, textureData, width, height)
  {
    builder := new Color[width, height];
    for y := 0 to height
      invariant Unpacked(builder, textureData, width, y)
    {
      UnpackRow(builder, textureData, width, height, y);
    }
  }

  /** In a filled grid, pixel (x, y) is texel x + y·width unpacked. */
  lemma UnpackedAt(builder: array2<Color>, textureData: seq<UInt32>, width: nat, rows: nat, x: nat, y: nat)
    requires Unpacked(builder, textureData, width, rows) && x < width && y < rows
    ensures x < builder.Length0 && y < builder.Length1 && x + y * width < |textureData|
    ensures builder[x, y] == Unpack(textureData[x + y * width])
  {
    assert RowUnpacked(builder, textureData, width, y, width);
    assert builder[x, y] == Unpack(textureData[x + RowStart(y, width)]);
    RowStartIsProduct(y, width);
  }

  /** The inner loop over one row. */
  method UnpackRow(builder: array2<Color>, textureData: seq<UInt32>, width: nat, height: nat, y: nat)
    requires builder.Length0 == width && builder.Length1 == height && |textureData| == height * width && y < height
    requires Unpacked(builder, textureData, width, y)
    modifies builder
    ensures Unpacked(builder, textureData, width, y + 1)
  {
    RowFits(y, width, height);
    RowStartIsProduct(y, width);
    for x := 0 to width
      invariant Unpacked(builder, textureData, width, y)
      invariant RowUnpacked(builder, textureData, width, y, x)
    {
      var i := x + y * width;
      var r := ByteOf(textureData[i], 0);
      var g := ByteOf(textureData[i], 1);
      var b := ByteOf(textureData[i], 2);
      var a := ByteOf(textureData[i], 3);
      label Before:
      builder[x, y] := Color(r, g, b, a);
      forall y' | 0 <= y' < y
        ensures RowUnpacked(builder, textureData, width, y', width)
      {
        RowFits(y', width, height);
        forall x' | 0 <= x' < width
          ensures builder[x', y'] == Unpack(textureData[x' + RowStart(y', width)])
        {
          assert old@Before(RowUnpacked(builder, textureData, width, y', width));
          assert builder[x', y'] == old@Before(builder[x', y']);
        }
      }
    }
  }

  /** The first argument check SaveAsImage fails, if any, in the order it makes them. */
  function SaveError(hasData: bool, hasStream: bool, width: int, height: int, format: ImageWriterFormat,
                     textureWidth: int, textureHeight: int): Option<Exception>
  {
    if !hasData then Some(ArgumentNullException)
    else if !hasStream then Some(ArgumentNullException)
    else if width <= 0 then Some(ArgumentOutOfRangeException)
    else if height <= 0 then Some(ArgumentOutOfRangeException)
    else if format == Jpg then Some(ArgumentException)
    else if textureWidth != width || textureHeight != height then Some(ArgumentException)
    else None
  }

  /**
   * Only a PNG of the texture's own size, with data and a stream, is ever
   * written; JPEG always fails, and so does any resize.
   */
  lemma SavesOnlyWhatItCan(hasData: bool, hasStream: bool, width: int, height: int, format: ImageWriterFormat,
                           textureWidth: int, textureHeight: int)
    ensures var e := SaveError(hasData, hasStream, width, height, format, textureWidth, textureHeight);
      && (e.None? <==> hasData && hasStream && format == Png && width == textureWidth > 0 && height == textureHeight > 0)
      && (format == Jpg ==> e.Some?)
      && (!hasData || !hasStream ==> e == Some(ArgumentNullException))
      && (hasData && hasStream && (width <= 0 || height <= 0) ==> e == Some(ArgumentOutOfRangeException))
      && (e.Some? && e.value == ArgumentException ==> hasData && hasStream && width > 0 && height > 0)
  {
  }

  /**
   * SaveAsImage: `textureData` None stands for null and `hasStream` for a
   * non-null stream. On success the result is the pixel grid written to the
   * stream; the size check comes after the builder is filled but before
   * anything is written.
   */
  method SaveAsImage(textureData: Option<seq<UInt32>>, textureWidth: nat, textureHeight: nat,
                     hasStream: bool, width: int, height: int, format: ImageWriterFormat)
    returns (r: Result<array2<Color>, Exception>)
    requires textureData.Some? ==> textureWidth > 0 && textureHeight > 0 && |textureData.value| == textureHeight * textureWidth
    ensures var e := SaveError(textureData.Some?, hasStream, width, height, format, textureWidth, textureHeight);
      && (r.Failure? <==> e.Some?)
      && (r.Failure? ==> r.error == e.value)
    ensures r.Success? ==>
      && fresh(r.value) && r.value.Length0 == width && r.value.Length1 == height
      && Unpacked(r.value, textureData.value, width, height)
  {
    if textureData.None? {
      return Failure(ArgumentNullException);
    }
    if !hasStream {
      return Failure(ArgumentNullException);
    }
    if width <= 0 {
      return Failure(ArgumentOutOfRangeException);
    }
    if height <= 0 {
      return Failure(ArgumentOutOfRangeException);
    }
    if format == Jpg {
      return Failure(ArgumentException);
    }
    var builder := CreateFromPixelData(textureData.value, textureWidth, textureHeight);
    if textureWidth != width || textureHeight != height {
      return Failure(ArgumentException);
    }
    return Success(builder);
  }
}
