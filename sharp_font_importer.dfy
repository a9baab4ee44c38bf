/**
 * SharpFontImporter: rasterizes the requested characters through FreeType
 * faces into glyph bitmaps, with a per-face glyph cache, and builds the
 * kerning table.
 *
 * FreeType is represented by what the importer asks of it: a face maps a
 * character to a glyph index, a glyph index to its rendered slot (after
 * LoadGlyph, Embolden and RenderGlyph), and a pair of indices to a kerning
 * vector. Lengths are 26.6 fixed point, as FreeType reports them.
 */
module FontImport {
  import opened Wrappers
  import opened Numerics

  // ---------------------------------------------------------------- FreeType

  /** A rendered bitmap: 1 bit per pixel when `mono`, else 1 byte per pixel. */
  datatype FtBitmap = FtBitmap(width: int, rows: int, mono: bool, buffer: seq<Byte>)

  /** The glyph slot after the glyph is loaded, emboldened and rendered. */
  datatype GlyphSlot = GlyphSlot(bitmap: FtBitmap, horizontalAdvance: int, bitmapLeft: int, bitmapTop: int, advanceX: int)

  /** A FreeType face sized for the import. `charIndex` answers 0 for an unmapped character. */
  datatype FontFace = FontFace(
    charIndex: WChar -> nat,
    slot: nat -> GlyphSlot,
    kerning: (nat, nat) -> int,
    height: int,
    ascender: int)

  /** The bytes of one row of a 1-bpp bitmap, as the importer walks it: ⌈width/8⌉. */
  function Pitch(width: int): int {
    (width + 7) / 8
  }

  /** What FreeType guarantees of a rendered bitmap: enough buffer for its rows. */
  predicate BitmapOk(b: FtBitmap) {
    b.width >= 0 && b.rows >= 0 &&
    if b.mono then |b.buffer| >= b.rows * Pitch(b.width) else |b.buffer| >= b.width * b.rows
  }

  ghost predicate FaceOk(face: FontFace) {
    forall i: nat :: BitmapOk(face.slot(i).bitmap)
  }

  /** `x >> 6` on a C# int: the whole part of a 26.6 value, rounded down. */
  function Floor26Dot6(x: int): int {
    x / 64
  }

  // ---------------------------------------------------------------- 1-bpp expansion

  /** The first `n` bits of `b`, high bit first, each as 255 or 0. */
  function ExpandedByte(b: Byte, n: nat): (r: seq<Byte>)
    requires n <= 8
    ensures |r| == n
  {
    seq(n, k requires 0 <= k < n => if BitSet(b, 7 - k) then 255 else 0)
  }

  /** One row of `width` pixels from its packed bytes. */
  function ExpandedRow(bytes: seq<Byte>, width: int): (r: seq<Byte>)
    requires |bytes| >= Pitch(width)
    ensures |r| == if width < 0 then 0 else width
    decreases width
  {
    if width <= 0 then [] else ExpandedByte(bytes[0], Min(8, width)) + ExpandedRow(bytes[1..], width - 8)
  }

  /** a·b by repeated addition: the proofs by induction over rows stay linear with it. */
  function Times(a: nat, b: int): (r: int)
    ensures b >= 0 ==> r >= 0
  {
    if a == 0 then 0 else Times(a - 1, b) + b
  }

  lemma {:induction false} TimesIsProduct(a: nat, b: int)
    ensures Times(a, b) == a * b
  {
    if a > 0 {
      TimesIsProduct(a - 1, b);
    }
  }

  lemma {:induction false} TimesMonotone(a: nat, c: nat, b: int)
    requires a <= c && b >= 0
    ensures Times(a, b) <= Times(c, b)
    decreases c
  {
    if a < c {
      TimesMonotone(a, c - 1, b);
    }
  }

  /** The whole bitmap, row after row, each row starting `Pitch(width)` bytes after the last. */
  function ExpandedBitmap(buffer: seq<Byte>, width: int, rows: nat): (r: seq<Byte>)
    requires width > 0 && |buffer| >= Times(rows, Pitch(width))
  {
    if rows == 0 then [] else ExpandedRow(buffer, width) + ExpandedBitmap(buffer[Pitch(width)..], width, rows - 1)
  }

  /** Pixel x of a row is bit 7 - x % 8 of byte x / 8. */
  lemma {:induction false} ExpandedRowPixel(bytes: seq<Byte>, width: int, x: int)
    requires |bytes| >= Pitch(width) && 0 <= x < width
    ensures x / 8 < |bytes|
    ensures ExpandedRow(bytes, width)[x] == if BitSet(bytes[x / 8], 7 - x % 8) then 255 else 0
    decreases width
  {
    var head := ExpandedByte(bytes[0], Min(8, width));
    var tail := ExpandedRow(bytes[1..], width - 8);
    assert ExpandedRow(bytes, width) == head + tail;
    if x < 8 {
      assert x / 8 == 0 && x % 8 == x;
    } else {
      ExpandedRowPixel(bytes[1..], width - 8, x - 8);
      assert (x - 8) / 8 + 1 == x / 8 && (x - 8) % 8 == x % 8;
    }
  }

  lemma {:induction false} ExpandedBitmapLength(buffer: seq<Byte>, width: int, rows: nat)
    requires width > 0 && |buffer| >= Times(rows, Pitch(width))
    ensures |ExpandedBitmap(buffer, width, rows)| == Times(rows, width)
  {
    if rows > 0 {
      ExpandedBitmapLength(buffer[Pitch(width)..], width, rows - 1);
    }
  }

  /** Where row y's pixel x and its source byte lie. */
  lemma PixelBounds(width: int, rows: nat, x: int, y: nat)
    requires width > 0 && 0 <= x < width && y < rows
    ensures Times(y, width) + x < Times(rows, width)
    ensures Times(y, Pitch(width)) + x / 8 < Times(rows, Pitch(width))
  {
    TimesMonotone(y + 1, rows, width);
    TimesMonotone(y + 1, rows, Pitch(width));
  }

  /** Row y of the bitmap is the expansion of the ⌈width/8⌉ bytes from y·⌈width/8⌉ on. */
  lemma {:induction false} ExpandedBitmapRow(buffer: seq<Byte>, width: int, rows: nat, x: int, y: nat)
    requires width > 0 && |buffer| >= Times(rows, Pitch(width))
    requires 0 <= x < width && y < rows
    ensures |ExpandedBitmap(buffer, width, rows)| == Times(rows, width)
    ensures Times(y, width) + x < Times(rows, width)
    ensures Times(y, Pitch(width)) + Pitch(width) <= |buffer|
    ensures ExpandedBitmap(buffer, width, rows)[Times(y, width) + x]
            == ExpandedRow(buffer[Times(y, Pitch(width))..], width)[x]
  {
    var p := Pitch(width);
    ExpandedBitmapLength(buffer, width, rows);
    PixelBounds(width, rows, x, y);
    TimesMonotone(y + 1, rows, p);
    ExpandedBitmapSnoc(buffer, width, rows - 1);
    ExpandedBitmapLength(buffer, width, rows - 1);
    if y < rows - 1 {
      ExpandedBitmapRow(buffer, width, rows - 1, x, y);
    }
  }


  /**
   * The expansion writes width·rows bytes; pixel (x, y) is bit 7 - x % 8 of
   * byte y·⌈width/8⌉ + x / 8 of the buffer.
   */
  lemma ExpandedBitmapPixel(buffer: seq<Byte>, width: int, rows: nat, x: int, y: nat)
    requires width > 0 && |buffer| >= rows * Pitch(width)
    requires 0 <= x < width && y < rows
    ensures Times(rows, Pitch(width)) <= |buffer|
    ensures |ExpandedBitmap(buffer, width, rows)| == rows * width
    ensures 0 <= y * width + x < rows * width
    ensures 0 <= y * Pitch(width) + x / 8 < |buffer|
    ensures ExpandedBitmap(buffer, width, rows)[y * width + x]
            == if BitSet(buffer[y * Pitch(width) + x / 8], 7 - x % 8) then 255 else 0
  {
    TimesIsProduct(rows, Pitch(width));
    TimesIsProduct(rows, width);
    TimesIsProduct(y, width);
    TimesIsProduct(y, Pitch(width));
    ExpandedBitmapRow(buffer, width, rows, x, y);
    ExpandedRowPixel(buffer[y * Pitch(width)..], width, x);
  }

  /** Appending a row: the form the expansion loop builds the bitmap in. */
  lemma {:induction false} ExpandedBitmapSnoc(buffer: seq<Byte>, width: int, rows: nat)
    requires width > 0 && |buffer| >= Times(rows + 1, Pitch(width))
    ensures Times(rows, Pitch(width)) <= |buffer|
    ensures ExpandedBitmap(buffer, width, rows + 1)
            == ExpandedBitmap(buffer, width, rows) + ExpandedRow(buffer[Times(rows, Pitch(width))..], width)
  {
    var p := Pitch(width);
    if rows == 0 {
      assert buffer[0..] == buffer;
    } else {
      var rest := buffer[p..];
      assert Times(rows + 1, p) == Times(rows, p) + p && Times(rows, p) == Times(rows - 1, p) + p;
      assert |rest| >= Times(rows, p);
      ExpandedBitmapSnoc(rest, width, rows - 1);
      assert rest[Times(rows - 1, p)..] == buffer[Times(rows, p)..];
    }
  }

  /** The value of the low `n` bits of `x`. */
  function LowBits(x: nat, n: nat): nat {
    if n == 0 then 0 else 2 * LowBits(x / 2, n - 1) + x % 2
  }

  lemma {:induction false} LowBitsSplit(x: nat, i: nat)
    ensures LowBits(x, i) < Pow2(i)
    ensures LowBits(x, i + 1) == LowBits(x, i) + (if BitSet(x, i) then Pow2(i) else 0)
  {
    if i > 0 {
      LowBitsSplit(x / 2, i - 1);
    }
  }

  lemma {:induction false} LowBitsAll(x: nat, n: nat)
    requires x < Pow2(n)
    ensures LowBits(x, n) == x
  {
    if n > 0 {
      LowBitsAll(x / 2, n - 1);
    }
  }

  lemma DivOne(o: int, t: int)
    requires 0 < t && 0 <= o < 2 * t
    ensures (o / t == 1) == (o >= t)
  {
  }

  /** Bit i of a byte, read the way the expansion loop reads it: by dividing what is left of the low bits. */
  lemma NextBit(origin: Byte, i: nat, o: int)
    requires i <= 7 && o == LowBits(origin, i + 1)
    ensures (o / Pow2(i) == 1) == BitSet(origin, i)
    ensures (if o / Pow2(i) == 1 then o - Pow2(i) else o) == LowBits(origin, i)
  {
    LowBitsSplit(origin, i);
    DivOne(o, Pow2(i));
  }

  /** The test and subtraction on `tmp = 1 << i` in ExpandByteAndCopy's loop. */
  method TakeBit(ghost origin: Byte, o: int, i: int) returns (bit: bool, rest: int)
    requires 0 <= i <= 7 && o == LowBits(origin, i + 1)
    ensures bit == BitSet(origin, i) && rest == LowBits(origin, i)
  {
    var tmp := Pow2(i);
    NextBit(origin, i, o);
    if o / tmp == 1 {
      bit, rest := true, o - tmp;
    } else {
      bit, rest := false, o;
    }
  }

  /**
   * ExpandByteAndCopy: writes the top `length` bits of `origin`, high bit
   * first, as 255 or 0 at `startIndex`, and nothing else.
   */
  method ExpandByteAndCopy(origin: Byte, length: int, destination: array<Byte>, startIndex: int)
    requires 0 <= length <= 8 && 0 <= startIndex && startIndex + length <= destination.Length
    modifies destination
    ensures forall n :: startIndex <= n < startIndex + length ==>
              destination[n] == if BitSet(origin, 7 - (n - startIndex)) then 255 else 0
    ensures forall n :: 0 <= n < destination.Length && !(startIndex <= n < startIndex + length) ==>
              destination[n] == old(destination[n])
  {
    var o: int := origin;
    var i := 7;
    LowBitsAll(origin, 8);
    while i > 7 - length
      invariant 7 - length <= i <= 7
      invariant o == LowBits(origin, i + 1)
      invariant forall n :: startIndex <= n < startIndex + 7 - i ==>
                  destination[n] == if BitSet(origin, 7 - (n - startIndex)) then 255 else 0
      invariant forall n :: 0 <= n < destination.Length && !(startIndex <= n < startIndex + 7 - i) ==>
                  destination[n] == old(destination[n])
    {
      var bit;
      bit, o := TakeBit(origin, o, i);
      destination[startIndex + 7 - i] := if bit then 255 else 0;
      i := i - 1;
    }
  }

  /** What ExpandByteAndCopy leaves in the destination, as a prefix. */
  lemma ChunkWritten(a: seq<Byte>, b: seq<Byte>, start: nat, origin: Byte, stride: nat)
    requires stride <= 8 && start + stride <= |a| == |b|
    requires forall n :: start <= n < start + stride ==> b[n] == if BitSet(origin, 7 - (n - start)) then 255 else 0
    requires forall n :: 0 <= n < |b| && !(start <= n < start + stride) ==> b[n] == a[n]
    ensures b[..start + stride] == a[..start] + ExpandedByte(origin, stride)
  {
  }

  /** One chunk of a row: the written prefix grows by the chunk's expansion, the rest of the row shrinks by it. */
  lemma RowChunk(before: seq<Byte>, after: seq<Byte>, at: nat, stride: nat,
                 bytes: seq<Byte>, w: int, done: seq<Byte>)
    requires 0 < w && stride == Min(8, w) && |bytes| >= Pitch(w)
    requires at + stride <= |before| == |after|
    requires forall n :: at <= n < at + stride ==> after[n] == if BitSet(bytes[0], 7 - (n - at)) then 255 else 0
    requires forall n :: 0 <= n < |after| && !(at <= n < at + stride) ==> after[n] == before[n]
    requires before[..at] + ExpandedRow(bytes, w) == done
    ensures w - stride > 0 ==> Pitch(w - stride) + 1 == Pitch(w)
    ensures w - stride > 0 ==> after[..at + stride] + ExpandedRow(bytes[1..], w - stride) == done
    ensures w - stride == 0 ==> Pitch(w) == 1 && after[..at + stride] == done
  {
    ChunkWritten(before, after, at, bytes[0], stride);
  }

  /** Where the row loop stands: `w` pixels still to write from byte `i` on, up to `at`. */
  predicate RowPen(buffer: seq<Byte>, start: int, width: int, written: int, i: int, w: int, at: int) {
    0 <= w <= width && start <= i && at + w == written + width
    && (w > 0 ==> i + Pitch(w) == start + Pitch(width))
    && (w == 0 ==> i + 1 == start + Pitch(width))
  }

  /** One pass of the row loop: expand the byte under the pen and move the pen on by its chunk. */
  method RowPass(buffer: seq<Byte>, ghost start: int, ghost width: int, ghost written: int,
                 i: int, w: int, at: int, pixels: array<Byte>, ghost done: seq<Byte>)
      returns (i': int, w': int, at': int)
    requires 0 <= start && start + Pitch(width) <= |buffer| && 0 <= written && written + width <= pixels.Length
    requires RowPen(buffer, start, width, written, i, w, at) && w > 0
    requires pixels[..at] + ExpandedRow(buffer[i..], w) == done
    modifies pixels
    ensures RowPen(buffer, start, width, written, i', w', at') && w' < w
    ensures w' > 0 ==> pixels[..at'] + ExpandedRow(buffer[i'..], w') == done
    ensures w' == 0 ==> pixels[..at'] == done
  {
    var stride := Min(8, w);
    ghost var before := pixels[..];
    ExpandByteAndCopy(buffer[i], stride, pixels, at);
    RowChunk(before, pixels[..], at, stride, buffer[i..], w, done);
    assert buffer[i..][1..] == buffer[i + 1..];
    at' := at + stride;
    w' := w - stride;
    i' := i;
    if w' > 0 {
      i' := i + 1;
    }
  }

  /**
   * One row of the 1-bpp expansion loop of ImportGlyph: chunks of at most 8
   * pixels, one source byte each; `i` is left on the row's last byte.
   */
  method ExpandRowInto(buffer: seq<Byte>, start: int, width: int, pixels: array<Byte>, written: int) returns (i: int)
    requires width > 0 && 0 <= start && start + Pitch(width) <= |buffer|
    requires 0 <= written && written + width <= pixels.Length
    modifies pixels
    ensures i == start + Pitch(width) - 1
    ensures pixels[..written + width] == old(pixels[..written]) + ExpandedRow(buffer[start..], width)
  {
    ghost var done := old(pixels[..written]) + ExpandedRow(buffer[start..], width);
    i := start;
    var w := width;
    var at := written;
    while w > 0
      invariant RowPen(buffer, start, width, written, i, w, at)
      invariant w > 0 ==> pixels[..at] + ExpandedRow(buffer[i..], w) == done
      invariant w == 0 ==> pixels[..at] == done
      decreases w
    {
      i, w, at := RowPass(buffer, start, width, written, i, w, at, pixels, done);
    }
  }

  /** Where the bitmap loop stands: `y` rows done, `written` pixels out, byte `i` next. */
  predicate BitmapPen(buffer: seq<Byte>, width: int, rows: nat, y: nat, written: int, i: int) {
    y <= rows && written == Times(y, width) && i == Times(y, Pitch(width))
    && written <= Times(rows, width) && i <= Times(rows, Pitch(width)) <= |buffer|
  }

  /** One pass of the bitmap loop: expand row y. */
  method BitmapPass(buffer: seq<Byte>, width: int, ghost rows: nat, ghost y: nat, written: int, i: int,
                    pixels: array<Byte>)
      returns (written': int, i': int)
    requires width > 0 && BitmapPen(buffer, width, rows, y, written, i)
    requires pixels.Length == Times(rows, width) && written < pixels.Length
    requires pixels[..written] == ExpandedBitmap(buffer, width, y)
    modifies pixels
    ensures BitmapPen(buffer, width, rows, y + 1, written', i')
    ensures pixels[..written'] == ExpandedBitmap(buffer, width, y + 1)
  {
    assert y < rows;
    TimesMonotone(y + 1, rows, Pitch(width));
    TimesMonotone(y + 1, rows, width);
    i' := ExpandRowInto(buffer, i, width, pixels, written);
    ExpandedBitmapSnoc(buffer, width, y);
    written' := written + width;
    i' := i' + 1;
  }

  /**
   * The 1-bpp expansion loop of ImportGlyph: `written` walks the
   * destination a row at a time, `i` the source bytes.
   */
  method ExpandMonoBitmap(buffer: seq<Byte>, width: int, rows: int) returns (pixels: array<Byte>)
    requires width > 0 && rows > 0 && |buffer| >= rows * Pitch(width)
    ensures Times(rows, Pitch(width)) <= |buffer|
    ensures fresh(pixels)
    ensures pixels[..] == ExpandedBitmap(buffer, width, rows)
  {
    var length := width * rows;
    TimesIsProduct(rows, Pitch(width));
    TimesIsProduct(rows, width);
    pixels := new Byte[length](_ => 0);
    var written := 0;
    var i := 0;
    ghost var y := 0;
    while written < length
      invariant BitmapPen(buffer, width, rows, y, written, i)
      invariant pixels.Length == length
      invariant pixels[..written] == ExpandedBitmap(buffer, width, y)
      decreases length - written
    {
      written, i := BitmapPass(buffer, width, rows, y, written, i, pixels);
      y := y + 1;
    }
    if y < rows {
      TimesMonotone(y + 1, rows, width);
    }
    assert pixels[..] == pixels[..written];
  }

  // ---------------------------------------------------------------- ImportGlyph

  /** The 8-bpp content of a glyph: rendered pixels, or an empty placeholder of the given size. */
  datatype GlyphBitmap =
    | Rendered(width: int, height: int, alphas: seq<Byte>)
    | Placeholder(width: int, height: int)

  /** GlyphData as ImportGlyph builds it. */
  datatype GlyphData = GlyphData(glyphIndex: nat, bitmap: GlyphBitmap, offsetX: int, offsetY: int, advance: int)

  /** The 8-bpp alphas of a non-empty rendered bitmap: expanded when 1-bpp, else its first width·rows bytes. */
  function GlyphAlphas(b: FtBitmap): (r: seq<Byte>)
    requires BitmapOk(b) && b.width > 0 && b.rows > 0
  {
    if b.mono then
      TimesIsProduct(b.rows, Pitch(b.width));
      ExpandedBitmap(b.buffer, b.width, b.rows)
    else b.buffer[..b.width * b.rows]
  }

  /**
   * The size of the placeholder for a glyph with no pixels: the advance, else
   * the line height, across; the line height, else that width, down. It is
   * non-empty exactly when the advance or the line height is at least a pixel.
   */
  function PlaceholderSize(horizontalAdvance: int, faceHeight: int): (size: (int, int))
    ensures var gHA := horizontalAdvance / 64;
            var gVA := faceHeight / 64;
            (size.0 > 0 && size.1 > 0 <==> gHA > 0 || gVA > 0)
            && size.0 == (if gHA > 0 then gHA else gVA)
            && size.1 == (if gVA > 0 then gVA else size.0)
  {
    var gHA := Floor26Dot6(horizontalAdvance);
    var gVA := Floor26Dot6(faceHeight);
    var w := if gHA > 0 then gHA else gVA;
    (w, if gVA > 0 then gVA else w)
  }

  /**
   * How far a glyph is moved down to centre it when its face's line height
   * differs from the first face's: half the difference, rounded toward zero.
   * It is 0 when the heights differ by at most a pixel.
   */
  function AdjustY(lineSpacing: int, faceHeight: int): (a: int)
    ensures var d := lineSpacing - faceHeight / 64;
            (d >= 0 ==> d - 1 <= 2 * a <= d)
            && (d < 0 ==> d <= 2 * a <= d + 1)
            && (a == 0 <==> -1 <= d <= 1)
  {
    var faceSpacing := Floor26Dot6(faceHeight);
    if faceSpacing != lineSpacing then TruncDiv(lineSpacing - faceSpacing, 2) else 0
  }

  /** What ImportGlyph returns for glyph `glyphIndex` of `face`, given the importer's LineSpacing. */
  function ImportedGlyph(glyphIndex: nat, face: FontFace, lineSpacing: int): (g: GlyphData)
    requires BitmapOk(face.slot(glyphIndex).bitmap)
  {
    var slot := face.slot(glyphIndex);
    var b := slot.bitmap;
    var bitmap :=
      if b.width > 0 && b.rows > 0 then Rendered(b.width, b.rows, GlyphAlphas(b))
      else
        var size := PlaceholderSize(slot.horizontalAdvance, face.height);
        Placeholder(size.0, size.1);
    GlyphData(glyphIndex, bitmap, slot.bitmapLeft,
              Floor26Dot6(face.ascender) - slot.bitmapTop + AdjustY(lineSpacing, face.height),
              Floor26Dot6(slot.advanceX))
  }

  /**
   * ImportGlyph's pixel data: a glyph with pixels keeps its size and gets
   * width·rows alphas (the 1-bpp case pixel by pixel), one without gets the
   * placeholder; the first face's glyphs are not moved.
   */
  lemma ImportedGlyphShape(glyphIndex: nat, face: FontFace, lineSpacing: int)
    requires BitmapOk(face.slot(glyphIndex).bitmap)
    ensures var g := ImportedGlyph(glyphIndex, face, lineSpacing);
            var slot := face.slot(glyphIndex);
            var b := slot.bitmap;
            g.glyphIndex == glyphIndex
            && (g.bitmap.Rendered? <==> b.width > 0 && b.rows > 0)
            && (g.bitmap.Rendered? ==>
                  g.bitmap.width == b.width && g.bitmap.height == b.rows
                  && |g.bitmap.alphas| == b.width * b.rows
                  && (!b.mono ==> g.bitmap.alphas == b.buffer[..b.width * b.rows]))
            && (g.bitmap.Placeholder? ==>
                  (g.bitmap.width, g.bitmap.height) == PlaceholderSize(slot.horizontalAdvance, face.height))
            && (Floor26Dot6(face.height) == lineSpacing ==> g.offsetY == face.ascender / 64 - slot.bitmapTop)
  {
    var b := face.slot(glyphIndex).bitmap;
    if b.width > 0 && b.rows > 0 && b.mono {
      TimesIsProduct(b.rows, Pitch(b.width));
      TimesIsProduct(b.rows, b.width);
      ExpandedBitmapLength(b.buffer, b.width, b.rows);
    }
  }

  /**
   * ImportGlyph's bitmap, offsets and advance for one glyph (loading,
   * emboldening and rendering are FreeType's and come in through `face`).
   */
  method ImportGlyph(glyphIndex: nat, face: FontFace, lineSpacing: int) returns (g: GlyphData)
    requires BitmapOk(face.slot(glyphIndex).bitmap)
    ensures g == ImportedGlyph(glyphIndex, face, lineSpacing)
  {
    var slot := face.slot(glyphIndex);
    var b := slot.bitmap;
    var bitmap: GlyphBitmap;
    if b.width > 0 && b.rows > 0 {
      var alphas: seq<Byte>;
      if b.mono {
        var pixels := ExpandMonoBitmap(b.buffer, b.width, b.rows);
        alphas := pixels[..];
      } else {
        alphas := b.buffer[..b.width * b.rows];
      }
      bitmap := Rendered(b.width, b.rows, alphas);
    } else {
      var gHA := Floor26Dot6(slot.horizontalAdvance);
      var gVA := Floor26Dot6(face.height);
      gHA := if gHA > 0 then gHA else gVA;
      gVA := if gVA > 0 then gVA else gHA;
      bitmap := Placeholder(gHA, gVA);
    }
    var adjustY := 0;
    var faceSpacing := Floor26Dot6(face.height);
    if faceSpacing != lineSpacing {
      adjustY := TruncDiv(lineSpacing - faceSpacing, 2);
    }
    var offsetY := Floor26Dot6(face.ascender) - slot.bitmapTop + adjustY;
    g := GlyphData(glyphIndex, bitmap, slot.bitmapLeft, offsetY, Floor26Dot6(slot.advanceX));
  }

  // ---------------------------------------------------------------- Import

  /** One imported character and the glyph data it was given. */
  datatype Glyph = Glyph(character: WChar, data: GlyphData)

  /**
   * A face's FontFaceCache: the glyphs rendered so far by index, their
   * indices in the order they were added (the order its dictionary lists
   * them), and the character that first reached each index.
   */
  datatype FaceCache = FaceCache(glyphMaps: map<nat, GlyphData>, keys: seq<nat>, charMap: map<nat, WChar>)

  const EmptyCache := FaceCache(map[], [], map[])

  ghost predicate AllFacesOk(faces: seq<FontFace>) {
    forall k :: 0 <= k < |faces| ==> FaceOk(faces[k])
  }

  /** The first face, in order, that maps `c` to a glyph (a non-zero index). */
  function FirstFace(faces: seq<FontFace>, c: WChar): (r: Option<nat>)
    ensures r.Some? ==> r.value < |faces| && faces[r.value].charIndex(c) != 0
    ensures r.Some? ==> forall j :: 0 <= j < r.value ==> faces[j].charIndex(c) == 0
    ensures r.None? ==> forall j :: 0 <= j < |faces| ==> faces[j].charIndex(c) == 0
  {
    if |faces| == 0 then None
    else if faces[0].charIndex(c) != 0 then Some(0)
    else match FirstFace(faces[1..], c)
      case None => None
      case Some(k) => Some(k + 1)
  }

  /** The importer's working state: one cache per face and the glyph list so far. */
  datatype ImportState = ImportState(caches: seq<FaceCache>, glyphs: seq<Glyph>)

  /**
   * One character of Import's loop: find the first face that maps it, take
   * the glyph from that face's cache or render and cache it, and append it;
   * a character no face maps is dropped.
   */
  function ImportStep(faces: seq<FontFace>, st: ImportState, c: WChar, lineSpacing: int): ImportState
    requires AllFacesOk(faces) && |st.caches| == |faces|
  {
    match FirstFace(faces, c)
    case None => st
    case Some(k) =>
      var index := faces[k].charIndex(c);
      var cache := st.caches[k];
      if index in cache.glyphMaps then
        ImportState(st.caches, st.glyphs + [Glyph(c, cache.glyphMaps[index])])
      else
        assert FaceOk(faces[k]);
        var data := ImportedGlyph(index, faces[k], lineSpacing);
        var cache' := FaceCache(cache.glyphMaps[index := data], cache.keys + [index], cache.charMap[index := c]);
        ImportState(st.caches[k := cache'], st.glyphs + [Glyph(c, data)])
  }

  /** Import's character loop over `chars`, from empty caches. */
  function ImportWalk(faces: seq<FontFace>, chars: seq<WChar>, lineSpacing: int): (st: ImportState)
    requires AllFacesOk(faces)
    ensures |st.caches| == |faces|
  {
    if |chars| == 0 then ImportState(seq(|faces|, _ => EmptyCache), [])
    else ImportStep(faces, ImportWalk(faces, chars[..|chars| - 1], lineSpacing), chars[|chars| - 1], lineSpacing)
  }

  /** The glyph a character gets with no cache at all: a fresh render from its first face. */
  function FreshGlyph(faces: seq<FontFace>, c: WChar, lineSpacing: int): GlyphData
    requires AllFacesOk(faces) && FirstFace(faces, c).Some?
  {
    var k := FirstFace(faces, c).value;
    assert FaceOk(faces[k]);
    ImportedGlyph(faces[k].charIndex(c), faces[k], lineSpacing)
  }

  /** The reference glyph list: each mapped character in order, with a fresh render. */
  function FreshGlyphs(faces: seq<FontFace>, chars: seq<WChar>, lineSpacing: int): seq<Glyph>
    requires AllFacesOk(faces)
  {
    if |chars| == 0 then []
    else
      var c := chars[|chars| - 1];
      FreshGlyphs(faces, chars[..|chars| - 1], lineSpacing)
      + if FirstFace(faces, c).Some? then [Glyph(c, FreshGlyph(faces, c, lineSpacing))] else []
  }

  /** The first character of `chars` whose first face is `k` and whose index there is `index`. */
  function FirstReaching(faces: seq<FontFace>, chars: seq<WChar>, k: nat, index: nat): Option<WChar> {
    if |chars| == 0 then None
    else
      var prev := FirstReaching(faces, chars[..|chars| - 1], k, index);
      var c := chars[|chars| - 1];
      if prev.Some? then prev
      else if FirstFace(faces, c) == Some(k) && faces[k].charIndex(c) == index then Some(c)
      else None
  }

  /**
   * What face k's cache holds after the characters `done`: an entry exactly
   * for the indices some character reached first in that face, listed once
   * each; its CharMap names the first such character; its glyph data is what
   * a fresh render gives.
   */
  ghost predicate CacheOk(faces: seq<FontFace>, done: seq<WChar>, k: nat, cache: FaceCache, lineSpacing: int)
    requires k < |faces| && FaceOk(faces[k])
  {
    (forall index :: index in cache.glyphMaps <==> FirstReaching(faces, done, k, index).Some?)
    && (forall index :: index in cache.glyphMaps ==>
          index in cache.charMap
          && FirstReaching(faces, done, k, index) == Some(cache.charMap[index])
          && cache.glyphMaps[index] == ImportedGlyph(index, faces[k], lineSpacing))
    && CacheKeysOk(cache)
  }

  ghost predicate CachesOk(faces: seq<FontFace>, done: seq<WChar>, caches: seq<FaceCache>, lineSpacing: int)
    requires AllFacesOk(faces)
  {
    |caches| == |faces| && forall k :: 0 <= k < |caches| ==> CacheOk(faces, done, k, caches[k], lineSpacing)
  }

  /** The cache's key list names each of its entries once, and each has a CharMap entry. */
  predicate CacheKeysOk(cache: FaceCache) {
    (forall i :: 0 <= i < |cache.keys| ==> cache.keys[i] in cache.glyphMaps && cache.keys[i] in cache.charMap)
    && (forall index :: index in cache.glyphMaps ==> index in cache.keys)
    && (forall i, j :: 0 <= i < j < |cache.keys| ==> cache.keys[i] != cache.keys[j])
  }

  lemma FirstReachingSnoc(faces: seq<FontFace>, done: seq<WChar>, c: WChar, k: nat, index: nat)
    ensures FirstReaching(faces, done + [c], k, index)
            == if FirstReaching(faces, done, k, index).Some? then FirstReaching(faces, done, k, index)
               else if FirstFace(faces, c) == Some(k) && faces[k].charIndex(c) == index then Some(c)
               else None
  {
    assert (done + [c])[..|done|] == done;
  }

  /** A cache the new character does not add to still describes the longer prefix. */
  lemma CacheKept(faces: seq<FontFace>, done: seq<WChar>, c: WChar, k: nat, cache: FaceCache, lineSpacing: int)
    requires k < |faces| && FaceOk(faces[k]) && CacheOk(faces, done, k, cache, lineSpacing)
    requires FirstFace(faces, c) == Some(k) ==> faces[k].charIndex(c) in cache.glyphMaps
    ensures CacheOk(faces, done + [c], k, cache, lineSpacing)
  {
    forall index {
      FirstReachingSnoc(faces, done, c, k, index);
    }
  }

  /** The cache the new character adds its render to describes the longer prefix. */
  lemma CacheAdded(faces: seq<FontFace>, done: seq<WChar>, c: WChar, k: nat, cache: FaceCache, lineSpacing: int)
    requires k < |faces| && FaceOk(faces[k]) && CacheOk(faces, done, k, cache, lineSpacing)
    requires FirstFace(faces, c) == Some(k) && faces[k].charIndex(c) !in cache.glyphMaps
    ensures var index := faces[k].charIndex(c);
            CacheOk(faces, done + [c], k,
                    FaceCache(cache.glyphMaps[index := ImportedGlyph(index, faces[k], lineSpacing)],
                              cache.keys + [index], cache.charMap[index := c]),
                    lineSpacing)
  {
    var index0 := faces[k].charIndex(c);
    KeysAdded(cache, index0, ImportedGlyph(index0, faces[k], lineSpacing), c);
    forall index {
      FirstReachingSnoc(faces, done, c, k, index);
    }
  }

  lemma KeysAdded(cache: FaceCache, index: nat, data: GlyphData, c: WChar)
    requires CacheKeysOk(cache) && index !in cache.glyphMaps
    ensures CacheKeysOk(FaceCache(cache.glyphMaps[index := data], cache.keys + [index], cache.charMap[index := c]))
  {
  }

  /** One step of Import keeps the caches consistent and the glyph list equal to the fresh renders. */
  lemma ImportStepKeeps(faces: seq<FontFace>, done: seq<WChar>, st: ImportState, c: WChar, lineSpacing: int)
    requires AllFacesOk(faces) && CachesOk(faces, done, st.caches, lineSpacing)
    requires st.glyphs == FreshGlyphs(faces, done, lineSpacing)
    ensures CachesOk(faces, done + [c], ImportStep(faces, st, c, lineSpacing).caches, lineSpacing)
    ensures ImportStep(faces, st, c, lineSpacing).glyphs == FreshGlyphs(faces, done + [c], lineSpacing)
  {
    assert (done + [c])[..|done|] == done;
    var caches := ImportStep(faces, st, c, lineSpacing).caches;
    forall k | 0 <= k < |caches|
      ensures CacheOk(faces, done + [c], k, caches[k], lineSpacing)
    {
      assert FaceOk(faces[k]);
      if FirstFace(faces, c) == Some(k) && faces[k].charIndex(c) !in st.caches[k].glyphMaps {
        CacheAdded(faces, done, c, k, st.caches[k], lineSpacing);
      } else {
        CacheKept(faces, done, c, k, st.caches[k], lineSpacing);
      }
    }
  }

  /**
   * Import's loop with its caches gives the same glyphs as rendering every
   * character afresh, and leaves the caches as CachesOk describes.
   */
  lemma {:induction false} ImportWalkFresh(faces: seq<FontFace>, chars: seq<WChar>, lineSpacing: int)
    requires AllFacesOk(faces)
    ensures CachesOk(faces, chars, ImportWalk(faces, chars, lineSpacing).caches, lineSpacing)
    ensures ImportWalk(faces, chars, lineSpacing).glyphs == FreshGlyphs(faces, chars, lineSpacing)
  {
    if |chars| == 0 {
      var caches := ImportWalk(faces, chars, lineSpacing).caches;
      forall k | 0 <= k < |caches|
        ensures CacheOk(faces, chars, k, caches[k], lineSpacing)
      {
        assert FaceOk(faces[k]);
      }
    } else {
      var front := chars[..|chars| - 1];
      ImportWalkFresh(faces, front, lineSpacing);
      ImportStepKeeps(faces, front, ImportWalk(faces, front, lineSpacing), chars[|chars| - 1], lineSpacing);
      assert front + [chars[|chars| - 1]] == chars;
    }
  }

  /** The characters some face maps, in input order. */
  function MappedChars(faces: seq<FontFace>, chars: seq<WChar>): (r: seq<WChar>)
    ensures |r| <= |chars|
    ensures forall i :: 0 <= i < |r| ==> FirstFace(faces, r[i]).Some?
    ensures forall i :: 0 <= i < |chars| && FirstFace(faces, chars[i]).Some? ==> chars[i] in r
  {
    if |chars| == 0 then []
    else
      var c := chars[|chars| - 1];
      var front := chars[..|chars| - 1];
      assert forall i :: 0 <= i < |front| ==> front[i] == chars[i];
      MappedChars(faces, front) + if FirstFace(faces, c).Some? then [c] else []
  }

  /**
   * Import's glyph list: one glyph per character some face maps, in input
   * order, each the glyph of that character's first face; unmapped
   * characters are dropped.
   */
  lemma {:induction false} FreshGlyphsMapped(faces: seq<FontFace>, chars: seq<WChar>, lineSpacing: int)
    requires AllFacesOk(faces)
    ensures var glyphs := FreshGlyphs(faces, chars, lineSpacing);
            var mapped := MappedChars(faces, chars);
            |glyphs| == |mapped|
            && forall i :: 0 <= i < |glyphs| ==>
                 glyphs[i] == Glyph(mapped[i], FreshGlyph(faces, mapped[i], lineSpacing))
  {
    if |chars| > 0 {
      FreshGlyphsMapped(faces, chars[..|chars| - 1], lineSpacing);
    }
  }

  // ---------------------------------------------------------------- Kerning

  /** The importer's kerning table: left character to right character to distance in pixels. */
  type KerningTable = map<WChar, map<WChar, int>>

  /** A kerning delta in 26.6 units, scaled by 4/3 and taken to whole pixels, rounded down, as a `short`. */
  function KerningDistance(dx: int): (d: int)
    ensures IsInt16(d)
  {
    ToInt16(Floor26Dot6(TruncDiv(ToInt32(4 * dx), 3)))
  }

  /**
   * Which deltas survive as non-zero distances, for deltas small enough not
   * to wrap: every negative delta (a tightening of at least one pixel), and a
   * positive one only from 48 (three quarters of a pixel) on.
   */
  lemma KerningDistanceSign(dx: int)
    requires -0x18_0000 <= dx < 0x18_0000
    ensures KerningDistance(dx) < 0 <==> dx < 0
    ensures KerningDistance(dx) == 0 <==> 0 <= dx < 48
    ensures dx >= 0 ==> KerningDistance(dx) == (4 * dx / 3) / 64
  {
    assert IsInt32(4 * dx);
    var t := TruncDiv(4 * dx, 3);
    assert -0x20_0000 <= t < 0x20_0000;
    assert IsInt16(t / 64);
  }

  /** The right-hand characters kerning keeps: letters and '.', ',' and '?'. */
  predicate RightOk(c: WChar, isLetter: WChar -> bool) {
    isLetter(c) || c == 0x2E || c == 0x2C || c == 0x3F
  }

  /** A well-formed table: letters on the left, no empty row, allowed characters on the right, non-zero shorts. */
  predicate KerningShape(table: KerningTable, isLetter: WChar -> bool) {
    forall left :: left in table ==>
      isLetter(left) && |table[left]| > 0 && RowShape(table[left], isLetter)
  }

  predicate RowShape(row: map<WChar, int>, isLetter: WChar -> bool) {
    forall right :: right in row ==> RightOk(right, isLetter) && row[right] != 0 && IsInt16(row[right])
  }

  predicate KeysMapped(cache: FaceCache, indices: seq<nat>) {
    forall i :: 0 <= i < |indices| ==> indices[i] in cache.charMap
  }

  /** The inner kerning loop: the distances from glyph `left` to each glyph of `rights`, later entries overwriting. */
  function RightDistances(face: FontFace, cache: FaceCache, left: nat, rights: seq<nat>, isLetter: WChar -> bool)
    : (row: map<WChar, int>)
    requires KeysMapped(cache, rights)
    ensures RowShape(row, isLetter)
    ensures forall right :: right in row ==> exists i :: 0 <= i < |rights| && cache.charMap[rights[i]] == right
  {
    if |rights| == 0 then map[]
    else
      var front := rights[..|rights| - 1];
      assert KeysMapped(cache, front);
      var prev := RightDistances(face, cache, left, front, isLetter);
      var index := rights[|rights| - 1];
      var right := cache.charMap[index];
      var d := KerningDistance(face.kerning(left, index));
      assert forall r :: r in prev ==> exists i :: 0 <= i < |rights| && cache.charMap[rights[i]] == r by {
        forall r | r in prev ensures exists i :: 0 <= i < |rights| && cache.charMap[rights[i]] == r {
          var i :| 0 <= i < |front| && cache.charMap[front[i]] == r;
          assert rights[i] == front[i];
        }
      }
      if !RightOk(right, isLetter) || d == 0 then prev else prev[right := d]
  }

  /** The middle kerning loop over one face's glyphs as left characters, on top of `table`. */
  function LeftKerning(face: FontFace, cache: FaceCache, lefts: seq<nat>, table: KerningTable, isLetter: WChar -> bool)
    : (r: KerningTable)
    requires KeysMapped(cache, lefts) && KeysMapped(cache, cache.keys)
    ensures KerningShape(table, isLetter) ==> KerningShape(r, isLetter)
  {
    if |lefts| == 0 then table
    else
      var front := lefts[..|lefts| - 1];
      assert KeysMapped(cache, front);
      var prev := LeftKerning(face, cache, front, table, isLetter);
      var index := lefts[|lefts| - 1];
      var left := cache.charMap[index];
      if !isLetter(left) then prev
      else
        var row := RightDistances(face, cache, index, cache.keys, isLetter);
        if |row| > 0 then prev[left := row] else prev
  }

  /** ImportGlyphKerningPairs: every face in order, later faces overwriting a left character's row. */
  function Kerning(faces: seq<FontFace>, caches: seq<FaceCache>, isLetter: WChar -> bool): (table: KerningTable)
    requires |faces| == |caches| && forall k :: 0 <= k < |caches| ==> KeysMapped(caches[k], caches[k].keys)
    ensures KerningShape(table, isLetter)
  {
    if |caches| == 0 then map[]
    else
      var n := |caches| - 1;
      LeftKerning(faces[n], caches[n], caches[n].keys, Kerning(faces[..n], caches[..n], isLetter), isLetter)
  }

  // ---------------------------------------------------------------- The importer

  /** The right-hand loop of ImportGlyphKerningPairs for glyph `left`. */
  method RightDistancePairs(face: FontFace, cache: FaceCache, left: nat, isLetter: WChar -> bool)
      returns (row: map<WChar, int>)
    requires KeysMapped(cache, cache.keys)
    ensures row == RightDistances(face, cache, left, cache.keys, isLetter)
  {
    var indices := cache.keys;
    row := map[];
    var j := 0;
    while j < |indices|
      invariant 0 <= j <= |indices|
      invariant KeysMapped(cache, indices[..j])
      invariant row == RightDistances(face, cache, left, indices[..j], isLetter)
    {
      var rightIndex := indices[j];
      var right := cache.charMap[rightIndex];
      assert indices[..j + 1][..j] == indices[..j];
      if RightOk(right, isLetter) {
        var delta := face.kerning(left, rightIndex);
        var adjustedDelta := TruncDiv(ToInt32(4 * delta), 3);
        var kerningDistance := ToInt16(Floor26Dot6(adjustedDelta));
        if kerningDistance != 0 {
          row := row[right := kerningDistance];
        }
      }
      j := j + 1;
    }
    assert indices[..j] == indices;
  }

  /** The left-hand loop of ImportGlyphKerningPairs over one face's cache. */
  method FaceKerningPairs(face: FontFace, cache: FaceCache, table: KerningTable, isLetter: WChar -> bool)
      returns (r: KerningTable)
    requires KeysMapped(cache, cache.keys)
    ensures r == LeftKerning(face, cache, cache.keys, table, isLetter)
  {
    var indices := cache.keys;
    r := table;
    var i := 0;
    while i < |indices|
      invariant 0 <= i <= |indices|
      invariant KeysMapped(cache, indices[..i])
      invariant r == LeftKerning(face, cache, indices[..i], table, isLetter)
    {
      var leftIndex := indices[i];
      var left := cache.charMap[leftIndex];
      LeftKerningStep(face, cache, indices, i, table, isLetter);
      if isLetter(left) {
        var rightDistance := RightDistancePairs(face, cache, leftIndex, isLetter);
        if |rightDistance| > 0 {
          r := r[left := rightDistance];
        }
      }
      i := i + 1;
    }
    assert indices[..i] == indices;
  }

  /** One more left glyph: its row, when it is a letter and the row is not empty, replaces the table's. */
  lemma LeftKerningStep(face: FontFace, cache: FaceCache, lefts: seq<nat>, i: nat, table: KerningTable,
                        isLetter: WChar -> bool)
    requires i < |lefts| && KeysMapped(cache, lefts) && KeysMapped(cache, cache.keys)
    ensures KeysMapped(cache, lefts[..i]) && KeysMapped(cache, lefts[..i + 1])
    ensures var left := cache.charMap[lefts[i]];
            var prev := LeftKerning(face, cache, lefts[..i], table, isLetter);
            var row := RightDistances(face, cache, lefts[i], cache.keys, isLetter);
            LeftKerning(face, cache, lefts[..i + 1], table, isLetter)
            == if isLetter(left) && |row| > 0 then prev[left := row] else prev
  {
    assert lefts[..i + 1][..i] == lefts[..i];
  }

  /** The face loop of ImportGlyphKerningPairs. */
  method KerningPairs(faces: seq<FontFace>, caches: seq<FaceCache>, isLetter: WChar -> bool) returns (table: KerningTable)
    requires |faces| == |caches| && forall k :: 0 <= k < |caches| ==> KeysMapped(caches[k], caches[k].keys)
    ensures table == Kerning(faces, caches, isLetter)
  {
    table := map[];
    var f := 0;
    while f < |caches|
      invariant 0 <= f <= |caches|
      invariant table == Kerning(faces[..f], caches[..f], isLetter)
    {
      KerningStep(faces, caches, f, isLetter);
      table := FaceKerningPairs(faces[f], caches[f], table, isLetter);
      f := f + 1;
    }
    assert faces[..f] == faces && caches[..f] == caches;
  }

  /** One more face on top of the first `f`: its left loop over the table built so far. */
  lemma KerningStep(faces: seq<FontFace>, caches: seq<FaceCache>, f: nat, isLetter: WChar -> bool)
    requires f < |faces| == |caches| && forall k :: 0 <= k < |caches| ==> KeysMapped(caches[k], caches[k].keys)
    ensures KeysMapped(caches[f], caches[f].keys)
    ensures Kerning(faces[..f + 1], caches[..f + 1], isLetter)
         == LeftKerning(faces[f], caches[f], caches[f].keys, Kerning(faces[..f], caches[..f], isLetter), isLetter)
  {
    assert faces[..f + 1][..f] == faces[..f];
    assert caches[..f + 1][..f] == caches[..f];
  }

  /** One character of Import's loop: the search over the faces, the cache lookup and the render. */
  method ImportCharacter(faces: seq<FontFace>, st: ImportState, c: WChar, lineSpacing: int) returns (st': ImportState)
    requires AllFacesOk(faces) && |st.caches| == |faces|
    ensures st' == ImportStep(faces, st, c, lineSpacing)
  {
    st' := st;
    var k := 0;
    while k < |faces|
      invariant 0 <= k <= |faces|
      invariant forall j :: 0 <= j < k ==> faces[j].charIndex(c) == 0
    {
      var face := faces[k];
      var glyphIndex := face.charIndex(c);
      if glyphIndex != 0 {
        var cache := st.caches[k];
        var glyphData: GlyphData;
        if glyphIndex in cache.glyphMaps {
          glyphData := cache.glyphMaps[glyphIndex];
        } else {
          assert FaceOk(face);
          glyphData := ImportGlyph(glyphIndex, face, lineSpacing);
          var cache' := FaceCache(cache.glyphMaps[glyphIndex := glyphData], cache.keys + [glyphIndex],
                                  cache.charMap[glyphIndex := c]);
          st' := st'.(caches := st.caches[k := cache']);
        }
        st' := st'.(glyphs := st.glyphs + [Glyph(c, glyphData)]);
        return;
      }
      k := k + 1;
    }
  }

  /**
   * The importer's results: the glyphs, the first face's line height and
   * top offset, and the kerning table when asked for one.
   */
  class SharpFontImporter {
    var glyphs: seq<Glyph>
    var lineSpacing: int
    var yOffsetMin: int
    var kerning: Option<KerningTable>

    constructor()
      ensures glyphs == [] && lineSpacing == 0 && yOffsetMin == 0 && kerning == None
    {
      glyphs := [];
      lineSpacing := 0;
      yOffsetMin := 0;
      kerning := None;
    }

    /**
     * Import over the faces the font names opened, in order. With no face,
     * reading the first one throws and nothing is set.
     */
    method Import(characters: seq<WChar>, useKerning: bool, faces: seq<FontFace>, isLetter: WChar -> bool)
        returns (o: Outcome<Exception>)
      requires AllFacesOk(faces)
      modifies this
      ensures |faces| == 0 ==> o == Fail(IndexOutOfRangeException) && unchanged(this)
      ensures |faces| > 0 ==> o == Pass
      ensures |faces| > 0 ==>
                var st := ImportWalk(faces, characters, Floor26Dot6(faces[0].height));
                lineSpacing == Floor26Dot6(faces[0].height)
                && glyphs == st.glyphs
                && yOffsetMin == Floor26Dot6(-faces[0].ascender)
                && CachesOk(faces, characters, st.caches, lineSpacing)
                && kerning == if useKerning then Some(Kerning(faces, st.caches, isLetter)) else old(kerning)
    {
      if |faces| == 0 {
        return Fail(IndexOutOfRangeException);
      }
      var firstFace := faces[0];
      lineSpacing := Floor26Dot6(firstFace.height);
      var st := ImportState(seq(|faces|, _ => EmptyCache), []);
      var n := 0;
      while n < |characters|
        invariant 0 <= n <= |characters|
        invariant lineSpacing == Floor26Dot6(firstFace.height) && kerning == old(kerning)
        invariant st == ImportWalk(faces, characters[..n], lineSpacing)
      {
        assert characters[..n + 1][..n] == characters[..n];
        st := ImportCharacter(faces, st, characters[n], lineSpacing);
        n := n + 1;
      }
      assert characters[..n] == characters;
      glyphs := st.glyphs;
      yOffsetMin := Floor26Dot6(-firstFace.ascender);
      ImportWalkFresh(faces, characters, lineSpacing);
      if useKerning {
        forall k | 0 <= k < |st.caches| ensures KeysMapped(st.caches[k], st.caches[k].keys) {
          assert FaceOk(faces[k]);
          assert CacheOk(faces, characters, k, st.caches[k], lineSpacing);
        }
        ImportGlyphKerningPairs(faces, st.caches, isLetter);
      }
      o := Pass;
    }

    /** ImportGlyphKerningPairs: builds the table and sets Kerning, and nothing else. */
    method ImportGlyphKerningPairs(faces: seq<FontFace>, caches: seq<FaceCache>, isLetter: WChar -> bool)
      requires |faces| == |caches| && forall k :: 0 <= k < |caches| ==> KeysMapped(caches[k], caches[k].keys)
      modifies this
      ensures kerning == Some(Kerning(faces, caches, isLetter))
      ensures glyphs == old(glyphs) && lineSpacing == old(lineSpacing) && yOffsetMin == old(yOffsetMin)
    {
      var table := KerningPairs(faces, caches, isLetter);
      kerning := Some(table);
    }
  }
}
