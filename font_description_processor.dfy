/**
 * The content-pipeline processor that turns a font description into sprite
 * font content: it checks the font files' extensions, imports the glyphs,
 * sorts them by character, checks the default character, fills the output's
 * parallel glyph lists, rewrites the packed atlas's alpha, and (on Linux)
 * reads fontconfig's answer for a family name.
 */
module FontProcessing {
  import opened Wrappers
  import opened Numerics
  import FontImport

  /** A .NET string: a sequence of UTF-16 code units. */
  type Text = seq<WChar>

  type Glyph = FontImport.Glyph
  type KerningTable = FontImport.KerningTable

  const DOT: WChar := 0x2E
  const SLASH: WChar := 0x2F
  const BACKSLASH: WChar := 0x5C
  const COLON: WChar := 0x3A
  const COMMA: WChar := 0x2C

  // ------------------------------------------------------ Path.GetExtension

  predicate IsDirectorySeparator(c: WChar) {
    c == SLASH || c == BACKSLASH
  }

  /** No dot and no directory separator after position `k` of `path`: `path[k]` starts the file's extension. */
  predicate PlainAfter(path: Text, k: int) {
    forall i :: 0 <= i < |path| && k < i ==> path[i] != DOT && !IsDirectorySeparator(path[i])
  }

  /** The last dot of the file-name part of `path`, scanning back to the nearest separator. */
  function LastDot(path: Text): (r: Option<nat>)
    ensures r.Some? ==> r.value < |path| && path[r.value] == DOT
  {
    if |path| == 0 then None
    else
      var n := |path| - 1;
      if path[n] == DOT then Some(n)
      else if IsDirectorySeparator(path[n]) then None
      else LastDot(path[..n])
  }

  /** LastDot finds a dot with a plain name after it, and there is none when it finds nothing. */
  lemma {:induction false} LastDotShape(path: Text)
    ensures var r := LastDot(path);
            (r.Some? ==> r.value < |path| && path[r.value] == DOT && PlainAfter(path, r.value))
            && (r.None? ==> forall k :: 0 <= k < |path| && path[k] == DOT ==> !PlainAfter(path, k))
  {
    if |path| > 0 {
      var n := |path| - 1;
      if path[n] != DOT && !IsDirectorySeparator(path[n]) {
        LastDotShape(path[..n]);
        assert forall k :: 0 <= k < n ==> (PlainAfter(path[..n], k) <==> PlainAfter(path, k));
      }
    }
  }

  /**
   * Path.GetExtension: the text from the last dot of the file name to the
   * end, dot included; empty when the name has no dot or ends with one.
   */
  function Extension(path: Text): Text {
    match LastDot(path)
    case None => []
    case Some(k) => if k < |path| - 1 then path[k..] else []
  }

  /**
   * A non-empty extension is a dot, then at least one character, ending the
   * path with no dot or separator after its own dot; an empty one means no
   * dot of the path is followed by a plain name.
   */
  lemma ExtensionShape(path: Text)
    ensures var e := Extension(path);
            (e != [] ==> 2 <= |e| <= |path| && e == path[|path| - |e|..] && e[0] == DOT && PlainAfter(path, |path| - |e|))
            && (e == [] ==> forall k :: 0 <= k < |path| - 1 && path[k] == DOT ==> !PlainAfter(path, k))
  {
    LastDotShape(path);
  }

  /** String.ToLowerInvariant, code unit by code unit through the invariant culture's case map `lower`. */
  function Lower(t: Text, lower: WChar -> WChar): (r: Text)
    ensures |r| == |t| && forall i :: 0 <= i < |t| ==> r[i] == lower(t[i])
  {
    seq(|t|, i requires 0 <= i < |t| => lower(t[i]))
  }

  const TTF: Text := [DOT, 0x74, 0x74, 0x66]   // ".ttf"
  const TTC: Text := [DOT, 0x74, 0x74, 0x63]   // ".ttc"
  const OTF: Text := [DOT, 0x6F, 0x74, 0x66]   // ".otf"

  /** The extensions the TrueType importer accepts. */
  predicate TrueTypeExtension(ext: Text) {
    ext == TTF || ext == TTC || ext == OTF
  }

  /** A font file the importer accepts: its extension, lower-cased, is a TrueType one. */
  predicate TrueTypeFile(fontName: Text, lower: WChar -> WChar) {
    TrueTypeExtension(Lower(Extension(fontName), lower))
  }

  // ---------------------------------------------------------- Sorting glyphs

  predicate SortedByCharacter(gs: seq<Glyph>) {
    forall i, j :: 0 <= i < j < |gs| ==> gs[i].character <= gs[j].character
  }

  predicate StrictlyAscending(gs: seq<Glyph>) {
    forall i, j :: 0 <= i < j < |gs| ==> gs[i].character < gs[j].character
  }

  predicate DistinctCharacters(gs: seq<Glyph>) {
    forall i, j :: 0 <= i < j < |gs| ==> gs[i].character != gs[j].character
  }

  /** Puts `g` into the sorted `gs` before the first glyph whose character is not smaller. */
  function Insert(g: Glyph, gs: seq<Glyph>): (r: seq<Glyph>)
    requires SortedByCharacter(gs)
    ensures SortedByCharacter(r)
    ensures multiset(r) == multiset(gs) + multiset{g}
    ensures r[0] == g || (|gs| > 0 && r[0] == gs[0])
  {
    if |gs| == 0 then [g]
    else if g.character <= gs[0].character then [g] + gs
    else
      var rest := Insert(g, gs[1..]);
      assert gs == [gs[0]] + gs[1..];
      assert gs[0].character <= rest[0].character;
      assert forall j :: 0 <= j < |rest| ==> rest[0].character <= rest[j].character;
      [gs[0]] + rest
  }

  /**
   * List.Sort by character. The model's sort keeps glyphs with equal
   * characters in input order; List.Sort promises no order among them.
   */
  function SortByCharacter(gs: seq<Glyph>): (r: seq<Glyph>)
    ensures SortedByCharacter(r)
    ensures multiset(r) == multiset(gs)
  {
    if |gs| == 0 then []
    else
      assert gs == [gs[0]] + gs[1..];
      Insert(gs[0], SortByCharacter(gs[1..]))
  }

  /** A sorted list whose characters are distinct ascends strictly. */
  lemma SortedDistinctAscends(gs: seq<Glyph>)
    requires SortedByCharacter(gs)
    requires forall x, y :: x in multiset(gs) && y in multiset(gs) && x != y ==> x.character != y.character
    requires forall x :: multiset(gs)[x] <= 1
    ensures StrictlyAscending(gs)
  {
    forall i, j | 0 <= i < j < |gs| ensures gs[i].character < gs[j].character {
      assert gs[i] in multiset(gs) && gs[j] in multiset(gs);
      OccursTwice(gs, i, j);
    }
  }

  /** Two positions holding the same glyph count it twice. */
  lemma OccursTwice(gs: seq<Glyph>, i: int, j: int)
    requires 0 <= i < j < |gs|
    ensures gs[i] == gs[j] ==> multiset(gs)[gs[i]] >= 2
  {
    assert gs == gs[..j] + [gs[j]] + gs[j + 1..];
    assert gs[i] in gs[..j];
  }

  /** Glyphs with distinct characters occur once each and differ pairwise in character. */
  lemma {:induction false} DistinctCounts(gs: seq<Glyph>)
    requires DistinctCharacters(gs)
    ensures forall x :: multiset(gs)[x] <= 1
    ensures forall x, y :: x in multiset(gs) && y in multiset(gs) && x != y ==> x.character != y.character
  {
    if |gs| > 0 {
      var rest := gs[1..];
      assert gs == [gs[0]] + rest;
      DistinctCounts(rest);
      forall y: Glyph | y in multiset(rest) ensures y.character != gs[0].character {
        var j :| 0 <= j < |rest| && rest[j] == y;
        assert gs[j + 1] == y;
      }
    }
  }

  /** Sorting glyphs whose characters are distinct gives strictly ascending characters. */
  lemma SortDistinctAscends(gs: seq<Glyph>)
    requires DistinctCharacters(gs)
    ensures StrictlyAscending(SortByCharacter(gs))
  {
    DistinctCounts(gs);
    SortedDistinctAscends(SortByCharacter(gs));
  }

  lemma SortedLength(gs: seq<Glyph>)
    ensures |SortByCharacter(gs)| == |gs|
  {
    assert |multiset(SortByCharacter(gs))| == |multiset(gs)|;
  }

  predicate HasCharacter(gs: seq<Glyph>, c: WChar) {
    exists i :: 0 <= i < |gs| && gs[i].character == c
  }

  // ------------------------------------------------------------- ImportFont

  /** The FontDescription fields the processor reads. */
  datatype FontDescription = FontDescription(
    characters: seq<WChar>, useKerning: bool, defaultCharacter: Option<WChar>, scale: real, spacing: real)

  /** ImportFont's results: the sorted glyphs and the importer's line spacing, Y offset and kerning. */
  datatype ImportedFont = ImportedFont(glyphs: seq<Glyph>, lineSpacing: int, yOffsetMin: int, kerning: Option<KerningTable>)

  /** The kerning table the importer leaves: built when kerning is used, otherwise none (null). */
  function ImportedKerning(faces: seq<FontImport.FontFace>, chars: seq<WChar>, lineSpacing: int,
                           isLetter: WChar -> bool, useKerning: bool): Option<KerningTable>
    requires FontImport.AllFacesOk(faces)
  {
    if !useKerning then None
    else
      var st := FontImport.ImportWalk(faces, chars, lineSpacing);
      assert forall k :: 0 <= k < |st.caches| ==> FontImport.KeysMapped(st.caches[k], st.caches[k].keys) by {
        FontImport.ImportWalkFresh(faces, chars, lineSpacing);
        forall k | 0 <= k < |st.caches| ensures FontImport.KeysMapped(st.caches[k], st.caches[k].keys) {
          assert FontImport.FaceOk(faces[k]);
          assert FontImport.CacheOk(faces, chars, k, st.caches[k], lineSpacing);
        }
      }
      Some(FontImport.Kerning(faces, st.caches, isLetter))
  }

  /**
   * The checks after the import: no glyph is an error; otherwise the glyphs
   * sorted by character, unless the default character is not among them.
   */
  function CheckedGlyphs(glyphs: seq<Glyph>, defaultCharacter: Option<WChar>): (r: Result<seq<Glyph>, Exception>)
    ensures r == Failure(PlainException) <==> |glyphs| == 0
    ensures r == Failure(InvalidOperationException) <==>
              |glyphs| > 0 && defaultCharacter.Some? && !HasCharacter(glyphs, defaultCharacter.value)
    ensures r.Success? ==>
              |r.value| == |glyphs| > 0
              && SortedByCharacter(r.value)
              && multiset(r.value) == multiset(glyphs)
              && (defaultCharacter.Some? ==> HasCharacter(r.value, defaultCharacter.value))
  {
    if |glyphs| == 0 then Failure(PlainException)
    else
      var sorted := SortByCharacter(glyphs);
      SortedLength(glyphs);
      PermutationKeepsCharacters(glyphs, sorted);
      if defaultCharacter.Some? && !HasCharacter(sorted, defaultCharacter.value) then
        Failure(InvalidOperationException)
      else
        Success(sorted)
  }

  /** Reordering glyphs keeps the characters present. */
  lemma PermutationKeepsCharacters(a: seq<Glyph>, b: seq<Glyph>)
    requires multiset(a) == multiset(b)
    ensures forall c :: HasCharacter(a, c) <==> HasCharacter(b, c)
  {
    forall c | HasCharacter(a, c) ensures HasCharacter(b, c) {
      var i :| 0 <= i < |a| && a[i].character == c;
      assert a[i] in multiset(b);
      var j :| 0 <= j < |b| && b[j] == a[i];
    }
    forall c | HasCharacter(b, c) ensures HasCharacter(a, c) {
      var j :| 0 <= j < |b| && b[j].character == c;
      assert b[j] in multiset(a);
      var i :| 0 <= i < |a| && a[i] == b[j];
    }
  }

  /** The default-character search after the sort, and the checks around it. */
  method CheckGlyphs(glyphs: seq<Glyph>, defaultCharacter: Option<WChar>) returns (r: Result<seq<Glyph>, Exception>)
    ensures r == CheckedGlyphs(glyphs, defaultCharacter)
  {
    if |glyphs| == 0 {
      return Failure(PlainException);
    }
    var sorted := SortByCharacter(glyphs);
    if defaultCharacter.Some? {
      var found := false;
      var n := 0;
      while n < |sorted|
        invariant 0 <= n <= |sorted|
        invariant found <==> exists i :: 0 <= i < n && sorted[i].character == defaultCharacter.value
      {
        if sorted[n].character == defaultCharacter.value {
          found := true;
          break;
        }
        n := n + 1;
      }
      if !found {
        return Failure(InvalidOperationException);
      }
    }
    r := Success(sorted);
  }

  /**
   * What ImportFont returns for the font files `fontNames`, opened as the
   * FreeType faces `faces`: an unknown extension, no face, no glyph and a
   * missing default character are errors, checked in that order.
   */
  function ImportFontResult(options: FontDescription, fontNames: seq<Text>, faces: seq<FontImport.FontFace>,
                            isLetter: WChar -> bool, lower: WChar -> WChar): Result<ImportedFont, Exception>
    requires |faces| == |fontNames| && FontImport.AllFacesOk(faces)
  {
    if exists i :: 0 <= i < |fontNames| && !TrueTypeFile(fontNames[i], lower) then Failure(PipelineException)
    else if |faces| == 0 then Failure(IndexOutOfRangeException)
    else
      var ls := FontImport.Floor26Dot6(faces[0].height);
      var st := FontImport.ImportWalk(faces, options.characters, ls);
      match CheckedGlyphs(st.glyphs, options.defaultCharacter)
      case Failure(e) => Failure(e)
      case Success(sorted) =>
        Success(ImportedFont(sorted, ls, FontImport.Floor26Dot6(-faces[0].ascender),
                             ImportedKerning(faces, options.characters, ls, isLetter, options.useKerning)))
  }
  /**
   * ImportFont fails with PipelineException exactly when some font file has
   * an unknown extension; when it succeeds, its glyphs are the glyphs the
   * importer renders, at least one, sorted by character, with the default
   * character among them, and its metrics are the first face's.
   */
  lemma ImportFontOutcome(options: FontDescription, fontNames: seq<Text>, faces: seq<FontImport.FontFace>,
                          isLetter: WChar -> bool, lower: WChar -> WChar)
    requires |faces| == |fontNames| && FontImport.AllFacesOk(faces)
    ensures var r := ImportFontResult(options, fontNames, faces, isLetter, lower);
            (r == Failure(PipelineException) <==> exists i :: 0 <= i < |fontNames| && !TrueTypeFile(fontNames[i], lower))
            && (r.Success? ==> |faces| > 0)
    ensures var r := ImportFontResult(options, fontNames, faces, isLetter, lower);
            r.Success? && |faces| > 0 ==>
              var ls := FontImport.Floor26Dot6(faces[0].height);
              var rendered := FontImport.FreshGlyphs(faces, options.characters, ls);
              |r.value.glyphs| > 0
              && SortedByCharacter(r.value.glyphs)
              && multiset(r.value.glyphs) == multiset(rendered)
              && (options.defaultCharacter.Some? ==> HasCharacter(r.value.glyphs, options.defaultCharacter.value))
              && r.value.lineSpacing == ls
              && r.value.yOffsetMin == FontImport.Floor26Dot6(-faces[0].ascender)
  {
    if |faces| > 0 {
      var ls := FontImport.Floor26Dot6(faces[0].height);
      FontImport.ImportWalkFresh(faces, options.characters, ls);
    }
  }


  /**
   * The imported glyphs carry one glyph per character some face maps; when
   * the description lists each character once, the sorted list is strictly
   * ascending, as SpriteFont's lookup needs.
   */
  lemma {:induction false} ImportedCharactersAscend(options: FontDescription, fontNames: seq<Text>,
                                                    faces: seq<FontImport.FontFace>, isLetter: WChar -> bool,
                                                    lower: WChar -> WChar)
    requires |faces| == |fontNames| && FontImport.AllFacesOk(faces)
    requires forall i, j :: 0 <= i < j < |options.characters| ==> options.characters[i] != options.characters[j]
    requires ImportFontResult(options, fontNames, faces, isLetter, lower).Success?
    ensures StrictlyAscending(ImportFontResult(options, fontNames, faces, isLetter, lower).value.glyphs)
  {
    var ls := FontImport.Floor26Dot6(faces[0].height);
    var st := FontImport.ImportWalk(faces, options.characters, ls);
    FontImport.ImportWalkFresh(faces, options.characters, ls);
    FontImport.FreshGlyphsMapped(faces, options.characters, ls);
    MappedCharsDistinct(faces, options.characters);
    var mapped := FontImport.MappedChars(faces, options.characters);
    assert DistinctCharacters(st.glyphs) by {
      forall i, j | 0 <= i < j < |st.glyphs| ensures st.glyphs[i].character != st.glyphs[j].character {
        assert st.glyphs[i].character == mapped[i] && st.glyphs[j].character == mapped[j];
      }
    }
    SortDistinctAscends(st.glyphs);
  }

  /** Dropping the characters no face maps keeps distinct characters distinct. */
  lemma {:induction false} MappedCharsDistinct(faces: seq<FontImport.FontFace>, chars: seq<WChar>)
    requires forall i, j :: 0 <= i < j < |chars| ==> chars[i] != chars[j]
    ensures forall i, j :: 0 <= i < j < |FontImport.MappedChars(faces, chars)| ==>
              FontImport.MappedChars(faces, chars)[i] != FontImport.MappedChars(faces, chars)[j]
    ensures forall x :: x in FontImport.MappedChars(faces, chars) ==> x in chars
  {
    if |chars| > 0 {
      var front := chars[..|chars| - 1];
      var c := chars[|chars| - 1];
      MappedCharsDistinct(faces, front);
      assert c !in front;
      assert chars == front + [c];
      var m := FontImport.MappedChars(faces, front);
      var r := FontImport.MappedChars(faces, chars);
      assert r == m + if FontImport.FirstFace(faces, c).Some? then [c] else [];
      assert forall x :: x in m ==> x != c && x in chars;
      forall i, j | 0 <= i < j < |r| ensures r[i] != r[j] {
        assert r[i] == m[i];
        if j == |m| {
          assert m[i] in m;
        } else {
          assert r[j] == m[j];
        }
      }
      forall x | x in r ensures x in chars {
        if x in m {
          assert x in front;
        }
      }
    }
  }

  /** ImportFont's extension loop: whether every font file has a TrueType extension. */
  method CheckExtensions(fontNames: seq<Text>, lower: WChar -> WChar) returns (known: bool)
    ensures known <==> forall i :: 0 <= i < |fontNames| ==> TrueTypeFile(fontNames[i], lower)
  {
    for n := 0 to |fontNames|
      invariant forall i :: 0 <= i < n ==> TrueTypeFile(fontNames[i], lower)
    {
      if !TrueTypeFile(fontNames[n], lower) {
        return false;
      }
    }
    return true;
  }

  /**
   * ImportFont: the extension check, the import, the glyph count check, the
   * sort and the default-character search.
   */
  method ImportFont(options: FontDescription, fontNames: seq<Text>, faces: seq<FontImport.FontFace>,
                    isLetter: WChar -> bool, lower: WChar -> WChar) returns (r: Result<ImportedFont, Exception>)
    requires |faces| == |fontNames| && FontImport.AllFacesOk(faces)
    ensures r == ImportFontResult(options, fontNames, faces, isLetter, lower)
  {
    var known := CheckExtensions(fontNames, lower);
    if !known {
      return Failure(PipelineException);
    }
    var importer := new FontImport.SharpFontImporter();
    var o := importer.Import(options.characters, options.useKerning, faces, isLetter);
    if o.Fail? {
      return Failure(o.error);
    }
    var checked := CheckGlyphs(importer.glyphs, options.defaultCharacter);
    if checked.Failure? {
      return Failure(checked.error);
    }
    r := Success(ImportedFont(checked.value, importer.lineSpacing, importer.yOffsetMin, importer.kerning));
  }


  // ---------------------------------------------------------------- Process

  datatype Rect = Rect(x: int, y: int, width: int, height: int)
  datatype Vector3 = Vector3(x: real, y: real, z: real)

  /** A glyph's data after cropping and packing: its place in the atlas and its offsets. */
  datatype ArrangedData = ArrangedData(subrect: Rect, offsetX: int, offsetY: int, advance: int)

  /** Math.Round on a double: to the nearest integer, halves to the even one. */
  function RoundHalfEven(x: real): (n: int)
    ensures -1.0 / 2.0 <= n as real - x <= 1.0 / 2.0
    ensures n as real - x == 1.0 / 2.0 || x - n as real == 1.0 / 2.0 ==> n % 2 == 0
  {
    var f := x.Floor;
    var d := x - f as real;
    if d < 1.0 / 2.0 then f
    else if d > 1.0 / 2.0 then f + 1
    else if f % 2 == 0 then f else f + 1
  }

  /** The output's scale: the reciprocal of a non-zero description scale, otherwise one. */
  function OutputScale(scale: real): (s: real)
    ensures scale != 0.0 ==> s * scale == 1.0
    ensures scale == 0.0 ==> s == 1.0
  {
    if scale != 0.0 then 1.0 / scale else 1.0
  }

  /** The cropping rectangle of a glyph: its size, placed `offsetY - yOffsetMin` down the line. */
  function Cropping(d: ArrangedData, yOffsetMin: int): Rect {
    Rect(0, d.offsetY - yOffsetMin, d.subrect.width, d.subrect.height)
  }

  /** The output's four glyph lists, one entry per glyph in order. */
  function CharacterMapOf(gs: seq<Glyph>): seq<WChar> {
    seq(|gs|, i requires 0 <= i < |gs| => gs[i].character)
  }

  function SubrectsOf(gs: seq<Glyph>, arrange: FontImport.GlyphData -> ArrangedData): seq<Rect> {
    seq(|gs|, i requires 0 <= i < |gs| => arrange(gs[i].data).subrect)
  }

  function CroppingsOf(gs: seq<Glyph>, arrange: FontImport.GlyphData -> ArrangedData, yOffsetMin: int): seq<Rect> {
    seq(|gs|, i requires 0 <= i < |gs| => Cropping(arrange(gs[i].data), yOffsetMin))
  }

  function OffsetsOf(gs: seq<Glyph>, arrange: FontImport.GlyphData -> ArrangedData): seq<Vector3> {
    seq(|gs|, i requires 0 <= i < |gs| => Offset(arrange(gs[i].data)))
  }

  function Offset(d: ArrangedData): Vector3 {
    Vector3(d.offsetX as real, d.offsetY as real, d.advance as real)
  }

  /** A pixel after the alpha rewrite, from its red byte. */
  function PixelRewritten(r: Byte, premultiply: bool): seq<Byte> {
    if premultiply then [r, r, r, r] else [255, 255, 255, r]
  }

  /** The RGBA atlas after the alpha rewrite, pixel by pixel. */
  function AlphaRewritten(bytes: seq<Byte>, premultiply: bool): (r: seq<Byte>)
    requires |bytes| % 4 == 0
    ensures |r| == |bytes|
    decreases |bytes|
  {
    if |bytes| == 0 then []
    else
      var n := |bytes| - 4;
      AlphaRewritten(bytes[..n], premultiply) + PixelRewritten(bytes[n], premultiply)
  }

  /** Pixel `p` of the rewritten atlas is the rewrite of pixel `p`'s red byte. */
  lemma {:induction false} AlphaRewrittenPixel(bytes: seq<Byte>, premultiply: bool, p: int, k: int)
    requires |bytes| % 4 == 0 && 0 <= p && 0 <= k < 4 && 4 * p + k < |bytes|
    ensures AlphaRewritten(bytes, premultiply)[4 * p + k] == PixelRewritten(bytes[4 * p], premultiply)[k]
    decreases |bytes|
  {
    var m := |bytes| - 4;
    if 4 * p < m {
      AlphaRewrittenPixel(bytes[..m], premultiply, p, k);
    }
  }

  /** In both modes each pixel's alpha is the red the glyph renderer wrote. */
  lemma AlphaIsRed(bytes: seq<Byte>, premultiply: bool, p: int)
    requires |bytes| % 4 == 0 && 0 <= p && 4 * p + 3 < |bytes|
    ensures AlphaRewritten(bytes, premultiply)[4 * p + 3] == bytes[4 * p]
  {
    AlphaRewrittenPixel(bytes, premultiply, p, 3);
  }

  /**
   * The premultiplied atlas is the white one with its colour channels scaled
   * by the pixel's alpha; the alpha channels agree.
   */
  lemma PremultipliedIsWhiteTimesAlpha(bytes: seq<Byte>, p: int, k: int)
    requires |bytes| % 4 == 0 && 0 <= p && 0 <= k < 4 && 4 * p + 3 < |bytes|
    ensures var white := AlphaRewritten(bytes, false);
            var alpha := white[4 * p + 3] as int;
            AlphaRewritten(bytes, true)[4 * p + k] == if k < 3 then white[4 * p + k] as int * alpha / 255 else alpha
  {
    var white := AlphaRewritten(bytes, false);
    var r := bytes[4 * p] as int;
    AlphaRewrittenPixel(bytes, true, p, k);
    AlphaRewrittenPixel(bytes, false, p, k);
    AlphaRewrittenPixel(bytes, false, p, 3);
    assert white[4 * p + 3] as int == r;
    if k < 3 {
      assert white[4 * p + k] as int == 255;
      assert 255 * r / 255 == r;
    }
  }

  /** Rewriting an already premultiplied atlas changes nothing. */
  lemma {:induction false} PremultiplyIdempotent(bytes: seq<Byte>)
    requires |bytes| % 4 == 0
    ensures AlphaRewritten(AlphaRewritten(bytes, true), true) == AlphaRewritten(bytes, true)
    decreases |bytes|
  {
    if |bytes| > 0 {
      var m := |bytes| - 4;
      var once := AlphaRewritten(bytes, true);
      PremultiplyIdempotent(bytes[..m]);
      assert once[..m] == AlphaRewritten(bytes[..m], true);
      assert once[m] == bytes[m];
    }
  }

  /** One pass of the alpha rewrite loop: the four bytes of the pixel at `idx`. */
  method RewritePixel(data: array<Byte>, idx: int, premultiply: bool)
    requires 0 <= idx && idx + 4 <= data.Length
    modifies data
    ensures data[..idx + 4] == old(data[..idx]) + PixelRewritten(old(data[idx]), premultiply)
    ensures data[idx + 4..] == old(data[idx + 4..])
  {
    var r := data[idx];
    if premultiply {
      data[idx + 0] := r;
      data[idx + 1] := r;
      data[idx + 2] := r;
      data[idx + 3] := r;
    } else {
      data[idx + 0] := 255;
      data[idx + 1] := 255;
      data[idx + 2] := 255;
      data[idx + 3] := r;
    }
  }

  lemma AlphaRewrittenSnoc(bytes: seq<Byte>, premultiply: bool, i: int)
    requires 0 <= i && i + 4 <= |bytes| && i % 4 == 0
    ensures AlphaRewritten(bytes[..i + 4], premultiply)
            == AlphaRewritten(bytes[..i], premultiply) + PixelRewritten(bytes[i], premultiply)
  {
    assert bytes[..i + 4][..i] == bytes[..i];
  }

  /** The alpha rewrite loop, over the atlas's RGBA bytes in place. */
  method RewriteAlpha(data: array<Byte>, premultiply: bool)
    requires data.Length % 4 == 0
    modifies data
    ensures data[..] == AlphaRewritten(old(data[..]), premultiply)
  {
    ghost var bytes := data[..];
    var idx := 0;
    while idx < data.Length
      invariant 0 <= idx <= data.Length && idx % 4 == 0
      invariant data[..idx] == AlphaRewritten(bytes[..idx], premultiply)
      invariant data[idx..] == bytes[idx..]
    {
      assert data[idx] == bytes[idx];
      assert data[idx + 4..] == bytes[idx + 4..] by {
        assert data[idx + 4..] == data[idx..][4..];
      }
      RewritePixel(data, idx, premultiply);
      AlphaRewrittenSnoc(bytes, premultiply, idx);
      idx := idx + 4;
    }
    assert bytes[..idx] == bytes && data[..] == data[..idx];
  }

  /** SpriteFontContent's fields the processor sets. */
  class SpriteFontContent {
    var characterMap: seq<WChar>
    var glyphs: seq<Rect>
    var cropping: seq<Rect>
    var offsets: seq<Vector3>
    var verticalLineSpacing: int
    var scale: real
    var kerningAdvance: Option<KerningTable>

    /** SpriteFontContent(FontDescription): empty lists, an empty kerning table and the description's scale. */
    constructor(desc: FontDescription)
      ensures characterMap == [] && glyphs == [] && cropping == [] && offsets == []
      ensures verticalLineSpacing == 0 && scale == desc.scale && kerningAdvance == Some(map[])
    {
      characterMap := [];
      glyphs := [];
      cropping := [];
      offsets := [];
      verticalLineSpacing := 0;
      scale := desc.scale;
      kerningAdvance := Some(map[]);
    }

    /** The four parallel lists stay in step: entry i of each describes the same glyph. */
    predicate Parallel()
      reads this
    {
      |glyphs| == |characterMap| && |cropping| == |characterMap| && |offsets| == |characterMap|
    }

    /**
     * Process's glyph loop: one entry per glyph, in order, in each list; the
     * arranged data of a glyph is what cropping and packing made of its data.
     */
    method AddGlyphs(gs: seq<Glyph>, arrange: FontImport.GlyphData -> ArrangedData, yOffsetMin: int)
      requires Parallel()
      modifies this
      ensures Parallel()
      ensures characterMap == old(characterMap) + CharacterMapOf(gs)
      ensures glyphs == old(glyphs) + SubrectsOf(gs, arrange)
      ensures cropping == old(cropping) + CroppingsOf(gs, arrange, yOffsetMin)
      ensures offsets == old(offsets) + OffsetsOf(gs, arrange)
      ensures verticalLineSpacing == old(verticalLineSpacing) && scale == old(scale)
      ensures kerningAdvance == old(kerningAdvance)
    {
      for n := 0 to |gs|
        invariant Parallel()
        invariant characterMap == old(characterMap) + CharacterMapOf(gs[..n])
        invariant glyphs == old(glyphs) + SubrectsOf(gs[..n], arrange)
        invariant cropping == old(cropping) + CroppingsOf(gs[..n], arrange, yOffsetMin)
        invariant offsets == old(offsets) + OffsetsOf(gs[..n], arrange)
        invariant verticalLineSpacing == old(verticalLineSpacing) && scale == old(scale)
        invariant kerningAdvance == old(kerningAdvance)
      {
        var d := arrange(gs[n].data);
        characterMap := characterMap + [gs[n].character];
        glyphs := glyphs + [d.subrect];
        cropping := cropping + [Cropping(d, yOffsetMin)];
        offsets := offsets + [Offset(d)];
        assert CharacterMapOf(gs[..n + 1]) == CharacterMapOf(gs[..n]) + [gs[n].character];
        assert SubrectsOf(gs[..n + 1], arrange) == SubrectsOf(gs[..n], arrange) + [d.subrect];
        assert CroppingsOf(gs[..n + 1], arrange, yOffsetMin) == CroppingsOf(gs[..n], arrange, yOffsetMin) + [Cropping(d, yOffsetMin)];
        assert OffsetsOf(gs[..n + 1], arrange) == OffsetsOf(gs[..n], arrange) + [Offset(d)];
      }
      assert gs[..|gs|] == gs;
    }
  }

  /** The output Process fills from the description and the imported font. */
  predicate Filled(output: SpriteFontContent, input: FontDescription, font: ImportedFont,
                   arrange: FontImport.GlyphData -> ArrangedData)
    reads output
  {
    output.verticalLineSpacing == RoundHalfEven(font.lineSpacing as real + input.spacing)
    && output.scale == OutputScale(input.scale)
    && output.kerningAdvance == font.kerning
    && output.characterMap == CharacterMapOf(font.glyphs)
    && output.glyphs == SubrectsOf(font.glyphs, arrange)
    && output.cropping == CroppingsOf(font.glyphs, arrange, font.yOffsetMin)
    && output.offsets == OffsetsOf(font.glyphs, arrange)
  }

  class FontDescriptionProcessor {
    var premultiplyAlpha: bool

    constructor()
      ensures premultiplyAlpha
    {
      premultiplyAlpha := true;
    }

    /**
     * Process, after the font files are found: import, then fill the output.
     * `arrange` gives each glyph data's subrect and offsets after cropping
     * and packing, and `atlas` is the packed face's RGBA bytes.
     */
    method Process(input: FontDescription, fontNames: seq<Text>, faces: seq<FontImport.FontFace>,
                   isLetter: WChar -> bool, lower: WChar -> WChar,
                   arrange: FontImport.GlyphData -> ArrangedData, atlas: array<Byte>)
        returns (r: Result<SpriteFontContent, Exception>)
      requires |faces| == |fontNames| && FontImport.AllFacesOk(faces)
      requires atlas.Length % 4 == 0
      modifies atlas
      ensures var imported := ImportFontResult(input, fontNames, faces, isLetter, lower);
              (r.Failure? <==> imported.Failure?)
              && (r.Failure? ==> r.error == imported.error && atlas[..] == old(atlas[..]))
              && (r.Success? ==>
                    fresh(r.value)
                    && Filled(r.value, input, imported.value, arrange)
                    && atlas[..] == AlphaRewritten(old(atlas[..]), premultiplyAlpha))
    {
      var output := new SpriteFontContent(input);
      var imported := ImportFont(input, fontNames, faces, isLetter, lower);
      if imported.Failure? {
        return Failure(imported.error);
      }
      Fill(output, input, imported.value, arrange);
      RewriteAlpha(atlas, premultiplyAlpha);
      r := Success(output);
    }
  }

  /** Process's assignments to a new output: line spacing, scale, kerning, then the glyph loop. */
  method Fill(output: SpriteFontContent, input: FontDescription, font: ImportedFont,
              arrange: FontImport.GlyphData -> ArrangedData)
    requires output.characterMap == [] && output.glyphs == [] && output.cropping == [] && output.offsets == []
    modifies output
    ensures Filled(output, input, font, arrange)
  {
    output.verticalLineSpacing := RoundHalfEven(font.lineSpacing as real + input.spacing);
    output.scale := OutputScale(input.scale);
    output.kerningAdvance := font.kerning;
    output.AddGlyphs(font.glyphs, arrange, font.yOffsetMin);
  }

  // ------------------------------------------------ FindFont's fc-match read

  /** Char.IsWhiteSpace: the Unicode space separators, line and paragraph separators, and U+0009-U+000D, U+0085. */
  predicate IsWhiteSpace(c: WChar) {
    (0x09 <= c <= 0x0D) || c == 0x20 || c == 0x85 || c == 0xA0 || c == 0x1680
    || (0x2000 <= c <= 0x200A) || c == 0x2028 || c == 0x2029 || c == 0x202F || c == 0x205F || c == 0x3000
  }

  /** The first position from `i` on that does not hold white space. */
  function SkipWhiteSpace(s: Text, i: int): (j: int)
    requires 0 <= i <= |s|
    ensures i <= j <= |s| && (j == |s| || !IsWhiteSpace(s[j]))
    ensures forall k :: i <= k < j ==> IsWhiteSpace(s[k])
    decreases |s| - i
  {
    if i == |s| || !IsWhiteSpace(s[i]) then i else SkipWhiteSpace(s, i + 1)
  }

  /** The start of the white space that ends `s[..j]`, not going below `lo`. */
  function BackOverWhiteSpace(s: Text, lo: int, j: int): (b: int)
    requires 0 <= lo <= j <= |s|
    ensures lo <= b <= j && (b == lo || !IsWhiteSpace(s[b - 1]))
    ensures forall k :: b <= k < j ==> IsWhiteSpace(s[k])
    decreases j - lo
  {
    if j == lo || !IsWhiteSpace(s[j - 1]) then j else BackOverWhiteSpace(s, lo, j - 1)
  }

  /**
   * String.Trim: the slice of `s` between its leading and its trailing white
   * space, which neither starts nor ends with white space.
   */
  function Trim(s: Text): (r: Text)
    ensures var a := SkipWhiteSpace(s, 0);
            a + |r| <= |s| && r == s[a..a + |r|]
            && (forall i :: 0 <= i < a ==> IsWhiteSpace(s[i]))
            && (forall i :: a + |r| <= i < |s| ==> IsWhiteSpace(s[i]))
    ensures r == [] || (!IsWhiteSpace(r[0]) && !IsWhiteSpace(r[|r| - 1]))
  {
    var a := SkipWhiteSpace(s, 0);
    var b := BackOverWhiteSpace(s, a, |s|);
    s[a..b]
  }

  /** The fields of `s` joined back with `sep` between them. */
  function Join(fields: seq<Text>, sep: WChar): Text
    requires |fields| >= 1
  {
    if |fields| == 1 then fields[0] else fields[0] + [sep] + Join(fields[1..], sep)
  }

  /** String.Split on one separator: the maximal runs between separators, empty ones included. */
  function Split(s: Text, sep: WChar): (fields: seq<Text>)
    ensures |fields| >= 1
    ensures forall i :: 0 <= i < |fields| ==> sep !in fields[i]
    ensures Join(fields, sep) == s
  {
    if |s| == 0 then [[]]
    else
      var rest := Split(s[1..], sep);
      if s[0] == sep then
        assert s == [sep] + s[1..];
        [[]] + rest
      else
        var fields := [[s[0]] + rest[0]] + rest[1..];
        assert fields[1..] == rest[1..];
        if |rest| == 1 then fields
        else
          assert Join(fields, sep) == [s[0]] + (rest[0] + [sep] + Join(rest[1..], sep));
          fields
  }

  /** Splitting a join of separator-free fields gives the fields back. */
  lemma {:induction false} SplitJoin(fields: seq<Text>, sep: WChar)
    requires |fields| >= 1 && forall i :: 0 <= i < |fields| ==> sep !in fields[i]
    ensures Split(Join(fields, sep), sep) == fields
    decreases |Join(fields, sep)|, |fields[0]|
  {
    var s := Join(fields, sep);
    if |fields[0]| == 0 {
      if |fields| > 1 {
        assert s == [sep] + Join(fields[1..], sep);
        assert s[1..] == Join(fields[1..], sep);
        SplitJoin(fields[1..], sep);
        assert fields == [[]] + fields[1..];
      }
    } else {
      var shorter := [fields[0][1..]] + fields[1..];
      assert shorter[1..] == fields[1..];
      assert s[0] == fields[0][0];
      assert Join(shorter, sep) == s[1..] by {
        if |fields| > 1 {
          assert s == fields[0] + [sep] + Join(fields[1..], sep);
        }
      }
      SplitJoin(shorter, sep);
      assert fields[0] == [fields[0][0]] + fields[0][1..];
    }
  }

  /** A text with no separator splits into itself alone. */
  lemma SplitWithoutSeparator(s: Text, sep: WChar)
    requires sep !in s
    ensures Split(s, sep) == [s]
  {
    SplitJoin([s], sep);
  }

  /** Whether one of the listed family names equals `name`, ignoring case. */
  predicate FamilyListed(families: seq<Text>, name: Text, lower: WChar -> WChar) {
    exists i :: 0 <= i < |families| && Lower(families[i], lower) == Lower(name, lower)
  }

  /**
   * FindFont's Linux branch, after fc-match printed `file:families`: the file
   * when one of the comma-separated families is `name` (ignoring case),
   * otherwise empty, since fontconfig answered with a fallback font.
   */
  function FcMatchFile(output: Text, name: Text, lower: WChar -> WChar): (file: Text)
    ensures file != [] ==> COLON !in file && file + [COLON] <= Trim(output)
  {
    var split := Split(Trim(output), COLON);
    if |split| < 2 then []
    else
      assert Trim(output) == split[0] + [COLON] + Join(split[1..], COLON);
      if COMMA in split[1] then
        if FamilyListed(Split(split[1], COMMA), name, lower) then split[0] else []
      else if Lower(split[1], lower) != Lower(name, lower) then []
      else split[0]
  }

  /**
   * The two branches of the family check agree: the file is returned exactly
   * when the second field, read as a comma-separated list, names the family.
   */
  lemma FcMatchFileFamilies(output: Text, name: Text, lower: WChar -> WChar)
    ensures var split := Split(Trim(output), COLON);
            FcMatchFile(output, name, lower) ==
              if |split| >= 2 && FamilyListed(Split(split[1], COMMA), name, lower) then split[0] else []
  {
    var split := Split(Trim(output), COLON);
    if |split| >= 2 && COMMA !in split[1] {
      SplitWithoutSeparator(split[1], COMMA);
      assert Split(split[1], COMMA)[0] == split[1];
    }
  }
}
