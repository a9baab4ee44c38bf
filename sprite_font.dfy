/**
 * SpriteFont: the runtime glyph table of a bitmap font.
 *
 * The character list is folded into regions (maximal runs of consecutive
 * characters); a character's glyph is found by a search over the regions.
 * On top of that sit the default-character fallback, kerning lookup and the
 * two string-measuring walks.
 */
module SpriteFonts {
  import opened Wrappers
  import opened Numerics

  datatype Rect = Rect(x: int, y: int, width: int, height: int)

  /** The atlas a font draws from; SpriteBatch reads its sorting key. Pixel data is not modelled. */
  datatype Texture2D = Texture2D(sortingKey: int, width: int, height: int)
  datatype Vec2 = Vec2(x: real, y: real)
  datatype Vec3 = Vec3(x: real, y: real, z: real)

  /**
   * One glyph. `leftSideBearing`, `width` and `rightSideBearing` are read by
   * the text layout of SpriteBatch; the constructor does not assign them, so
   * they keep the struct default 0.
   */
  datatype Glyph = Glyph(
    character: WChar,
    boundsInTexture: Rect,
    cropping: Rect,
    offsetX: real,
    offsetY: real,
    advance: real,
    leftSideBearing: real,
    width: real,
    rightSideBearing: real)

  /** The characters start..end are the glyphs startIndex.. in order. */
  datatype CharacterRegion = CharacterRegion(start: WChar, end: WChar, startIndex: int)

  /** For each left character, the right characters it is kerned against. */
  type KerningTable = map<WChar, map<WChar, Int16>>

  function MakeGlyph(c: WChar, bounds: Rect, crop: Rect, offset: Vec3): Glyph {
    Glyph(c, bounds, crop, offset.x, offset.y, offset.z, 0.0, 0.0, 0.0)
  }

  function Len(g: CharacterRegion): int {
    g.end - g.start + 1
  }

  /** Where the region puts character `c`. */
  function IndexIn(g: CharacterRegion, c: int): int {
    g.startIndex + (c - g.start)
  }

  /** The first `n` characters are strictly ascending. */
  predicate AscendingUpTo(cs: seq<WChar>, n: int) {
    forall i, j :: 0 <= i < j < n && j < |cs| ==> cs[i] < cs[j]
  }

  predicate Ascending(cs: seq<WChar>) {
    AscendingUpTo(cs, |cs|)
  }

  lemma AscendingStep(cs: seq<WChar>, i: int)
    requires 0 <= i < |cs| && AscendingUpTo(cs, i)
    requires i > 0 ==> cs[i - 1] < cs[i]
    ensures AscendingUpTo(cs, i + 1)
  {
    forall a, b | 0 <= a < b < i + 1
      ensures cs[a] < cs[b]
    {
      if b == i && a < i - 1 {
        assert cs[a] < cs[i - 1];
      }
    }
  }

  /** Every region is non-empty and lies inside the first `n` glyph indices. */
  ghost predicate RegionsBounded(rs: seq<CharacterRegion>, n: int) {
    forall j :: 0 <= j < |rs| ==>
      rs[j].start <= rs[j].end && 0 <= rs[j].startIndex && rs[j].startIndex + Len(rs[j]) <= n
  }

  /** Regions are in ascending order with at least one missing character between them. */
  ghost predicate RegionsSeparated(rs: seq<CharacterRegion>) {
    forall j, k :: 0 <= j < k < |rs| ==> rs[j].end + 1 < rs[k].start
  }

  /** Every character of a region sits at the index the region computes for it. */
  ghost predicate RegionsPlaced(rs: seq<CharacterRegion>, cs: seq<WChar>, n: int)
    requires 0 <= n <= |cs|
  {
    forall j, c :: 0 <= j < |rs| && rs[j].start <= c <= rs[j].end ==>
      0 <= IndexIn(rs[j], c) < n && cs[IndexIn(rs[j], c)] == c
  }

  ghost predicate InSomeRegion(rs: seq<CharacterRegion>, c: int) {
    exists j :: 0 <= j < |rs| && rs[j].start <= c <= rs[j].end
  }

  /** Every one of the first `n` characters lies in some region. */
  ghost predicate RegionsCover(rs: seq<CharacterRegion>, cs: seq<WChar>, n: int)
    requires 0 <= n <= |cs|
  {
    forall i {:trigger InSomeRegion(rs, cs[i])} :: 0 <= i < n ==> InSomeRegion(rs, cs[i])
  }

  /** The regions are laid end to end over the glyph indices 0..n-1. */
  ghost predicate RegionsContiguous(rs: seq<CharacterRegion>, n: int) {
    && (|rs| == 0 ==> n == 0)
    && (|rs| > 0 ==> rs[0].startIndex == 0 && rs[|rs| - 1].startIndex + Len(rs[|rs| - 1]) == n)
    && (forall j, k {:trigger rs[j], rs[k]} :: 0 <= j && k == j + 1 && k < |rs| ==> rs[k].startIndex == rs[j].startIndex + Len(rs[j]))
  }

  /** `rs` is the region list of the first `n` characters of `cs`. */
  ghost predicate Runs(rs: seq<CharacterRegion>, cs: seq<WChar>, n: int)
    requires 0 <= n <= |cs|
  {
    && RegionsBounded(rs, n)
    && RegionsSeparated(rs)
    && RegionsPlaced(rs, cs, n)
    && RegionsCover(rs, cs, n)
    && RegionsContiguous(rs, n)
  }

  ghost predicate RunsOf(rs: seq<CharacterRegion>, cs: seq<WChar>) {
    Runs(rs, cs, |cs|)
  }

  lemma StartPlaced(rs: seq<CharacterRegion>, cs: seq<WChar>, i: int)
    requires 0 <= i < |cs| && RegionsPlaced(rs, cs, i)
    ensures RegionsPlaced(rs + [CharacterRegion(cs[i], cs[i], i)], cs, i + 1)
  {
    var rs' := rs + [CharacterRegion(cs[i], cs[i], i)];
    forall j, c | 0 <= j < |rs'| && rs'[j].start <= c <= rs'[j].end
      ensures 0 <= IndexIn(rs'[j], c) < i + 1 && cs[IndexIn(rs'[j], c)] == c
    {
      if j < |rs| {
        assert rs'[j] == rs[j];
      }
    }
  }

  lemma StartCover(rs: seq<CharacterRegion>, cs: seq<WChar>, i: int)
    requires 0 <= i < |cs| && RegionsCover(rs, cs, i)
    ensures RegionsCover(rs + [CharacterRegion(cs[i], cs[i], i)], cs, i + 1)
  {
    var rs' := rs + [CharacterRegion(cs[i], cs[i], i)];
    forall k | 0 <= k < i + 1
      ensures InSomeRegion(rs', cs[k])
    {
      if k == i {
        assert rs'[|rs|].start <= cs[k] <= rs'[|rs|].end;
      } else {
        assert InSomeRegion(rs, cs[k]);
        var j :| 0 <= j < |rs| && rs[j].start <= cs[k] <= rs[j].end;
        assert rs'[j] == rs[j];
      }
    }
  }

  /** A character one past a gap opens a new region whose first glyph is `i`. */
  lemma StartRun(rs: seq<CharacterRegion>, cs: seq<WChar>, i: int)
    requires 0 <= i < |cs| && Runs(rs, cs, i)
    requires i == 0 <==> rs == []
    requires rs != [] ==> cs[i] > rs[|rs| - 1].end + 1
    ensures Runs(rs + [CharacterRegion(cs[i], cs[i], i)], cs, i + 1)
  {
    var g := CharacterRegion(cs[i], cs[i], i);
    var rs' := rs + [g];
    assert RegionsBounded(rs', i + 1);
    forall j, k | 0 <= j < k < |rs'|
      ensures rs'[j].end + 1 < rs'[k].start
    {
      if k == |rs| && j < |rs| - 1 {
        assert rs[j].end + 1 < rs[|rs| - 1].start;
      }
    }
    StartPlaced(rs, cs, i);
    StartCover(rs, cs, i);
    assert RegionsContiguous(rs', i + 1);
  }

  lemma ExtendPlaced(rs: seq<CharacterRegion>, cs: seq<WChar>, i: int)
    requires 0 <= i < |cs| && RegionsPlaced(rs, cs, i) && RegionsContiguous(rs, i)
    requires rs != [] && cs[i] == rs[|rs| - 1].end + 1
    ensures RegionsPlaced(rs[..|rs| - 1] + [rs[|rs| - 1].(end := cs[i])], cs, i + 1)
  {
    var last := |rs| - 1;
    var g := rs[last].(end := cs[i]);
    var rs' := rs[..last] + [g];
    forall j, c | 0 <= j < |rs'| && rs'[j].start <= c <= rs'[j].end
      ensures 0 <= IndexIn(rs'[j], c) < i + 1 && cs[IndexIn(rs'[j], c)] == c
    {
      if j < last {
        assert rs'[j] == rs[j];
      } else if c < cs[i] {
        assert rs[last].start <= c <= rs[last].end;
        assert IndexIn(rs'[j], c) == IndexIn(rs[last], c);
      } else {
        assert IndexIn(g, c) == i;
      }
    }
  }

  lemma ExtendCover(rs: seq<CharacterRegion>, cs: seq<WChar>, i: int)
    requires 0 <= i < |cs| && RegionsCover(rs, cs, i) && RegionsBounded(rs, i)
    requires rs != [] && cs[i] == rs[|rs| - 1].end + 1
    ensures RegionsCover(rs[..|rs| - 1] + [rs[|rs| - 1].(end := cs[i])], cs, i + 1)
  {
    var last := |rs| - 1;
    var g := rs[last].(end := cs[i]);
    var rs' := rs[..last] + [g];
    forall k | 0 <= k < i + 1
      ensures InSomeRegion(rs', cs[k])
    {
      if k == i {
        assert rs'[last] == g;
      } else {
        assert InSomeRegion(rs, cs[k]);
        var j :| 0 <= j < |rs| && rs[j].start <= cs[k] <= rs[j].end;
        assert rs'[j].start == rs[j].start && rs[j].end <= rs'[j].end;
      }
    }
  }

  /** The character right after a region's end extends that region by one. */
  lemma ExtendRun(rs: seq<CharacterRegion>, cs: seq<WChar>, i: int)
    requires 0 <= i < |cs| && Runs(rs, cs, i)
    requires rs != [] && cs[i] == rs[|rs| - 1].end + 1
    ensures Runs(rs[..|rs| - 1] + [rs[|rs| - 1].(end := cs[i])], cs, i + 1)
  {
    var last := |rs| - 1;
    var g := rs[last].(end := cs[i]);
    var rs' := rs[..last] + [g];
    assert RegionsBounded(rs', i + 1) by {
      forall j | 0 <= j < |rs'|
        ensures rs'[j].start <= rs'[j].end && 0 <= rs'[j].startIndex && rs'[j].startIndex + Len(rs'[j]) <= i + 1
      {
        if j < last {
          assert rs'[j] == rs[j];
        }
      }
    }
    assert RegionsSeparated(rs') by {
      forall j, k | 0 <= j < k < |rs'|
        ensures rs'[j].end + 1 < rs'[k].start
      {
        assert rs'[j] == rs[j] && rs'[k].start == rs[k].start;
      }
    }
    ExtendPlaced(rs, cs, i);
    ExtendCover(rs, cs, i);
    assert RegionsContiguous(rs', i + 1) by {
      forall j | 0 < j < |rs'|
        ensures rs'[j].startIndex == rs'[j - 1].startIndex + Len(rs'[j - 1])
      {
        assert rs'[j - 1] == rs[j - 1];
      }
    }
  }

  /** Total number of characters the regions cover. */
  function SumLengths(rs: seq<CharacterRegion>): int {
    if rs == [] then 0 else SumLengths(rs[..|rs| - 1]) + Len(rs[|rs| - 1])
  }

  lemma {:induction false} SumLengthsPrefix(rs: seq<CharacterRegion>, cs: seq<WChar>, j: nat)
    requires RunsOf(rs, cs) && 0 < j <= |rs|
    ensures SumLengths(rs[..j]) == rs[j - 1].startIndex + Len(rs[j - 1])
  {
    assert rs[..j][..j - 1] == rs[..j - 1];
    if j > 1 {
      SumLengthsPrefix(rs, cs, j - 1);
    }
  }

  /** The region lengths add up to the number of characters. */
  lemma RegionLengthsSumToCount(rs: seq<CharacterRegion>, cs: seq<WChar>)
    requires RunsOf(rs, cs)
    ensures SumLengths(rs) == |cs|
  {
    if rs != [] {
      SumLengthsPrefix(rs, cs, |rs|);
      assert rs[..|rs|] == rs;
    }
  }

  datatype FontIndex = FontIndex(glyphs: seq<Glyph>, regions: seq<CharacterRegion>)

  /** How many entries every parallel list has. */
  function ListsEnd(glyphBounds: seq<Rect>, cropping: seq<Rect>, offsets: seq<Vec3>): int {
    Min(Min(|glyphBounds|, |cropping|), |offsets|)
  }

  /**
   * The constructor's loop: one glyph per character from the parallel lists,
   * and the region stack. Reading past a short list throws
   * ArgumentOutOfRangeException; a character not above the previous one
   * throws InvalidOperationException; whichever index comes first wins.
   */
  method BuildGlyphs(glyphBounds: seq<Rect>, cropping: seq<Rect>, characters: seq<WChar>, offsets: seq<Vec3>)
    returns (r: Result<FontIndex, Exception>)
    ensures r.Success? <==>
      |characters| <= ListsEnd(glyphBounds, cropping, offsets) && Ascending(characters)
    ensures r.Failure? ==>
      var k := ListsEnd(glyphBounds, cropping, offsets);
      r.error == if k < |characters| && AscendingUpTo(characters, k) then ArgumentOutOfRangeException
                 else InvalidOperationException
    ensures r.Success? ==>
      && |r.value.glyphs| == |characters|
      && (forall i :: 0 <= i < |characters| ==>
            r.value.glyphs[i] == MakeGlyph(characters[i], glyphBounds[i], cropping[i], offsets[i]))
      && RunsOf(r.value.regions, characters)
  {
    var n := |characters|;
    var glyphs: seq<Glyph> := [];
    var regions: seq<CharacterRegion> := [];
    var i := 0;
    while i < n
      invariant 0 <= i <= n
      invariant i <= ListsEnd(glyphBounds, cropping, offsets)
      invariant AscendingUpTo(characters, i)
      invariant |glyphs| == i
      invariant forall j :: 0 <= j < i ==>
        glyphs[j] == MakeGlyph(characters[j], glyphBounds[j], cropping[j], offsets[j])
      invariant Runs(regions, characters, i)
      invariant i == 0 <==> regions == []
      invariant i > 0 ==> regions[|regions| - 1].end == characters[i - 1]
    {
      if i >= |glyphBounds| || i >= |cropping| || i >= |offsets| {
        ShortListFails(glyphBounds, cropping, characters, offsets, i);
        return Failure(ArgumentOutOfRangeException);
      }
      ghost var before := glyphs;
      glyphs := glyphs + [MakeGlyph(characters[i], glyphBounds[i], cropping[i], offsets[i])];
      assert forall j :: 0 <= j < i ==> glyphs[j] == before[j];
      var pushed := PushCharacter(regions, characters, i);
      if pushed.Failure? {
        DescendingFails(glyphBounds, cropping, characters, offsets, i);
        return Failure(pushed.error);
      }
      regions := pushed.value;
      AscendingStep(characters, i);
      i := i + 1;
    }
    return Success(FontIndex(glyphs, regions));
  }

  /** The region-stack step for character `i`: open a region, extend the top one, or throw. */
  method PushCharacter(regions: seq<CharacterRegion>, characters: seq<WChar>, i: int)
    returns (r: Result<seq<CharacterRegion>, Exception>)
    requires 0 <= i < |characters| && Runs(regions, characters, i)
    requires i == 0 <==> regions == []
    requires i > 0 ==> regions[|regions| - 1].end == characters[i - 1]
    ensures r.Success? <==> i == 0 || characters[i - 1] < characters[i]
    ensures r.Failure? ==> r.error == InvalidOperationException
    ensures r.Success? ==>
      && Runs(r.value, characters, i + 1)
      && r.value != [] && r.value[|r.value| - 1].end == characters[i]
  {
    if regions == [] || characters[i] > regions[|regions| - 1].end + 1 {
      StartRun(regions, characters, i);
      r := Success(regions + [CharacterRegion(characters[i], characters[i], i)]);
    } else if characters[i] == regions[|regions| - 1].end + 1 {
      ExtendRun(regions, characters, i);
      ghost var extended := regions[..|regions| - 1] + [regions[|regions| - 1].(end := characters[i])];
      var top := regions[|regions| - 1];
      var popped := regions[..|regions| - 1];
      top := top.(end := top.end + 1);
      assert popped + [top] == extended;
      r := Success(popped + [top]);
    } else {
      r := Failure(InvalidOperationException);
    }
  }

  /** A list that ends at `i` while the characters before it ascend: the out-of-range error wins. */
  lemma ShortListFails(glyphBounds: seq<Rect>, cropping: seq<Rect>, characters: seq<WChar>, offsets: seq<Vec3>, i: int)
    requires 0 <= i < |characters| && i <= ListsEnd(glyphBounds, cropping, offsets)
    requires i >= |glyphBounds| || i >= |cropping| || i >= |offsets|
    requires AscendingUpTo(characters, i)
    ensures ListsEnd(glyphBounds, cropping, offsets) == i < |characters|
    ensures AscendingUpTo(characters, ListsEnd(glyphBounds, cropping, offsets))
  {
  }

  /** A character not above its predecessor, inside every list: the order error wins. */
  lemma DescendingFails(glyphBounds: seq<Rect>, cropping: seq<Rect>, characters: seq<WChar>, offsets: seq<Vec3>, i: int)
    requires 0 < i < |characters| && i < ListsEnd(glyphBounds, cropping, offsets)
    requires characters[i] <= characters[i - 1]
    ensures !Ascending(characters)
    ensures !AscendingUpTo(characters, ListsEnd(glyphBounds, cropping, offsets))
  {
    assert characters[i - 1] >= characters[i];
  }

  /** Position of `c` in the character list, if it is there. */
  function IndexOfChar(cs: seq<WChar>, c: WChar): (r: Option<nat>)
    ensures r.Some? ==> r.value < |cs| && cs[r.value] == c
    ensures r.None? <==> c !in cs
  {
    if cs == [] then None
    else if cs[0] == c then Some(0)
    else match IndexOfChar(cs[1..], c)
      case None => None
      case Some(i) => Some(i + 1)
  }

  /** In an ascending list a character has one position. */
  lemma AscendingIndexUnique(cs: seq<WChar>, i: int, c: WChar)
    requires Ascending(cs) && 0 <= i < |cs| && cs[i] == c
    ensures IndexOfChar(cs, c) == Some(i)
  {
  }

  /** GetKerning: 0 for a NUL on either side or a missing entry, else the stored short. */
  function GetKerning(kerning: KerningTable, prev: WChar, c: WChar): (k: Int16)
    ensures prev == NUL || c == NUL || prev !in kerning || c !in kerning[prev] ==> k == 0
    ensures prev != NUL && c != NUL && prev in kerning && c in kerning[prev] ==> k == kerning[prev][c]
  {
    if prev == NUL || c == NUL then 0
    else if prev !in kerning then 0
    else if c !in kerning[prev] then 0
    else kerning[prev][c]
  }

  /** What a font's lookups and measurements read: a snapshot of its state. */
  datatype FontView = FontView(
    texture: Texture2D,
    characters: seq<WChar>,
    glyphs: seq<Glyph>,
    kerning: KerningTable,
    lineSpacing: int,
    spacing: real,
    defaultGlyphIndex: int,
    scale: real)

  predicate ViewOk(v: FontView) {
    && |v.glyphs| == |v.characters|
    && (v.defaultGlyphIndex == -1 || 0 <= v.defaultGlyphIndex < |v.glyphs|)
  }

  /**
   * GetGlyphIndexOrDefault: the character's own glyph, else the cached
   * default glyph; ArgumentException when neither exists.
   */
  function GlyphIndexOrDefault(v: FontView, c: WChar): (r: Result<nat, Exception>)
    requires ViewOk(v)
    ensures r.Success? ==> r.value < |v.glyphs|
    ensures c in v.characters ==> r.Success? && v.characters[r.value] == c
    ensures c !in v.characters ==>
      (r.Success? <==> v.defaultGlyphIndex != -1) && (r.Success? ==> r.value == v.defaultGlyphIndex)
    ensures r.Failure? ==> r.error == ArgumentException
  {
    match IndexOfChar(v.characters, c)
    case Some(i) => Success(i)
    case None => if v.defaultGlyphIndex == -1 then Failure(ArgumentException) else Success(v.defaultGlyphIndex)
  }

  predicate Resolves(v: FontView, c: WChar)
    requires ViewOk(v)
  {
    GlyphIndexOrDefault(v, c).Success?
  }

  /** The glyph `c` is drawn with. */
  function GlyphFor(v: FontView, c: WChar): Glyph
    requires ViewOk(v) && Resolves(v, c)
  {
    v.glyphs[GlyphIndexOrDefault(v, c).value]
  }

  /**
   * The first probe of TryGetGlyphIndex as written: an interpolation guess
   * c * r / (Start[0] + Start[r]). It reads region 0 of an empty region array
   * and divides by zero when both starts are NUL.
   */
  function FirstProbeAsWritten(rs: seq<CharacterRegion>, c: WChar): (r: Result<int, Exception>)
    ensures |rs| == 0 <==> r == Failure(NullReferenceException)
  {
    if |rs| == 0 then Failure(NullReferenceException)
    else
      var hi := |rs| - 1;
      var d := rs[0].start + rs[hi].start;
      if d == 0 then Failure(DivideByZeroException) else Success((c * hi) / d)
  }

  /** A font whose last region outruns the interpolation: the probe for '\u0004' is past the array. */
  lemma ProbeOverrunsRegions()
    ensures var cs: seq<WChar> := [0, 2, 3, 4];
            var rs := [CharacterRegion(0, 0, 0), CharacterRegion(2, 4, 1)];
            && RunsOf(rs, cs) && 4 in cs
            && FirstProbeAsWritten(rs, 4) == Success(2) && 2 >= |rs|
  {
    var cs: seq<WChar> := [0, 2, 3, 4];
    var rs := [CharacterRegion(0, 0, 0), CharacterRegion(2, 4, 1)];
    forall i | 0 <= i < 4 ensures InSomeRegion(rs, cs[i]) {
      var j := if i == 0 then 0 else 1;
      assert rs[j].start <= cs[i] <= rs[j].end;
    }
    forall j, c | 0 <= j < 2 && rs[j].start <= c <= rs[j].end
      ensures 0 <= IndexIn(rs[j], c) < 4 && cs[IndexIn(rs[j], c)] == c
    {
      if j == 1 {
        assert IndexIn(rs[j], c) == c - 1;
      }
    }
    assert RegionsPlaced(rs, cs, 4);
    assert RegionsSeparated(rs) by {
      forall j, k | 0 <= j < k < 2 ensures rs[j].end + 1 < rs[k].start {
        assert j == 0 && k == 1;
      }
    }
  }

  /** A font whose only region starts at NUL: every lookup divides by zero. */
  lemma ProbeDividesByZero(c: WChar)
    ensures var rs := [CharacterRegion(0, 2, 0)];
            && RunsOf(rs, [0, 1, 2])
            && FirstProbeAsWritten(rs, c) == Failure(DivideByZeroException)
  {
    var cs: seq<WChar> := [0, 1, 2];
    var rs := [CharacterRegion(0, 2, 0)];
    forall i | 0 <= i < 3 ensures InSomeRegion(rs, cs[i]) {
      assert rs[0].start <= cs[i] <= rs[0].end;
    }
  }

  /** The first probe with the guess kept inside the region array. */
  function FirstProbe(rs: seq<CharacterRegion>, c: WChar): (m: int)
    requires |rs| > 0
    ensures 0 <= m < |rs|
    ensures FirstProbeAsWritten(rs, c).Success? && 0 <= FirstProbeAsWritten(rs, c).value < |rs| ==>
      m == FirstProbeAsWritten(rs, c).value
  {
    var p := FirstProbeAsWritten(rs, c);
    if p.Success? && 0 <= p.value < |rs| then p.value else (|rs| - 1) / 2
  }

  /** The default character and its cached glyph index. */
  datatype DefaultSlot = DefaultSlot(character: Option<WChar>, glyphIndex: int)

  /** No default means index -1; a default caches the index of its own glyph. */
  predicate SlotConsistent(cs: seq<WChar>, d: DefaultSlot) {
    match d.character
    case None => d.glyphIndex == -1
    case Some(c) => 0 <= d.glyphIndex < |cs| && cs[d.glyphIndex] == c
  }

  /**
   * The DefaultCharacter setter as written: TryGetGlyphIndex writes its out
   * parameter straight into the cached index, so a failed set leaves -1 there
   * while the old character stays.
   */
  function SetDefaultAsWritten(cs: seq<WChar>, d: DefaultSlot, value: Option<WChar>): (r: (DefaultSlot, Outcome<Exception>))
    ensures r.1.Fail? <==> value.Some? && value.value !in cs
  {
    match value
    case None => (DefaultSlot(None, -1), Pass)
    case Some(c) =>
      match IndexOfChar(cs, c)
      case Some(i) => (DefaultSlot(value, i), Pass)
      case None => (d.(glyphIndex := -1), Fail(ArgumentException))
  }

  /**
   * '?' is the default of a font of '?' and 'A'; setting '@', which the first
   * probe sends to region 0 and finds absent, throws but strands '?' with
   * index -1.
   */
  lemma FailedDefaultSetStrandsCharacter()
    ensures var cs: seq<WChar> := [63, 65];
            var d := DefaultSlot(Some(63), 0);
            var rs := [CharacterRegion(63, 63, 0), CharacterRegion(65, 65, 1)];
            var r := SetDefaultAsWritten(cs, d, Some(64));
            && RunsOf(rs, cs)
            && FirstProbeAsWritten(rs, 64) == Success(0)
            && SlotConsistent(cs, d)
            && r.1 == Fail(ArgumentException)
            && r.0.character == Some(63)
            && !SlotConsistent(cs, r.0)
  {
    var cs: seq<WChar> := [63, 65];
    var rs := [CharacterRegion(63, 63, 0), CharacterRegion(65, 65, 1)];
    forall i | 0 <= i < 2 ensures InSomeRegion(rs, cs[i]) {
      assert rs[i].start <= cs[i] <= rs[i].end;
    }
    assert 64 !in cs;
  }

  /**
   * The DefaultCharacter setter with the lookup kept local: a failed set
   * throws ArgumentException and changes nothing.
   */
  function SetDefault(cs: seq<WChar>, d: DefaultSlot, value: Option<WChar>): (r: (DefaultSlot, Outcome<Exception>))
    ensures r.1.Pass? <==> value.None? || value.value in cs
    ensures r.1.Fail? ==> r.1 == Fail(ArgumentException) && r.0 == d
    ensures r.1.Pass? ==> r.0.character == value && SlotConsistent(cs, r.0)
  {
    match value
    case None => (DefaultSlot(None, -1), Pass)
    case Some(c) =>
      match IndexOfChar(cs, c)
      case Some(i) => (DefaultSlot(value, i), Pass)
      case None => (d, Fail(ArgumentException))
  }

  /** The corrected setter keeps the pair consistent whatever happens. */
  lemma SetDefaultKeepsConsistency(cs: seq<WChar>, d: DefaultSlot, value: Option<WChar>)
    requires SlotConsistent(cs, d)
    ensures SlotConsistent(cs, SetDefault(cs, d, value).0)
  {
  }

  /** Every character that is neither CR nor LF resolves to a glyph. */
  predicate AllResolve(v: FontView, s: seq<WChar>)
    requires ViewOk(v)
    decreases |s|
  {
    s == [] || (AllResolve(v, s[..|s| - 1]) && var c := s[|s| - 1]; c == CR || c == LF || Resolves(v, c))
  }

  lemma {:induction false} AllResolveAt(v: FontView, s: seq<WChar>, j: int)
    requires ViewOk(v) && AllResolve(v, s) && 0 <= j < |s| && s[j] != CR && s[j] != LF
    ensures Resolves(v, s[j])
  {
    if j < |s| - 1 {
      assert s[..|s| - 1][j] == s[j];
      AllResolveAt(v, s[..|s| - 1], j);
    }
  }

  lemma {:induction false} AllResolveAppend(v: FontView, a: seq<WChar>, b: seq<WChar>)
    requires ViewOk(v)
    ensures AllResolve(v, a + b) <==> AllResolve(v, a) && AllResolve(v, b)
  {
    if b == [] {
      assert a + b == a;
    } else {
      var b' := b[..|b| - 1];
      assert (a + b)[..|a + b| - 1] == a + b';
      AllResolveAppend(v, a, b');
    }
  }

  /** The distance between baselines the measurement uses: LineSpacing + 1. */
  function LineAdvance(v: FontView): real {
    (v.lineSpacing + 1) as real
  }

  /** What a character adds to the current line after the first character. */
  function PenAdvance(v: FontView, prev: WChar, ch: WChar): real
    requires ViewOk(v) && Resolves(v, ch)
  {
    GlyphFor(v, ch).advance + GetKerning(v.kerning, prev, ch) as real + v.spacing
  }

  /** The StringBuilder overload's loop state: `offset` and the previous character. */
  datatype BuilderPen = BuilderPen(x: real, y: real, prev: WChar)

  /** One loop iteration; a character without a glyph stops the measurement before it gets here. */
  function BuilderStep(v: FontView, p: BuilderPen, ch: WChar): BuilderPen
    requires ViewOk(v)
  {
    if ch == CR then p
    else if ch == LF then p.(x := 0.0, y := p.y + LineAdvance(v))
    else if !Resolves(v, ch) then p
    else p.(x := p.x + PenAdvance(v, p.prev, ch), prev := ch)
  }

  function BuilderWalk(v: FontView, p: BuilderPen, s: seq<WChar>): BuilderPen
    requires ViewOk(v)
    decreases |s|
  {
    if s == [] then p
    else
      BuilderStep(v, BuilderWalk(v, p, s[..|s| - 1]), s[|s| - 1])
  }

  /** A measured extent multiplied by the font scale. */
  function Scaled(e: Vec2, scale: real): Vec2 {
    Vec2(e.x * scale, e.y * scale)
  }

  function ScaledResult(r: Result<Vec2, Exception>, scale: real): Result<Vec2, Exception> {
    if r.Failure? then Failure(r.error) else Success(Scaled(r.value, scale))
  }

  /** The first character's baseline: LineSpacing + 1, twice over when it is a LF. */
  function StartY(v: FontView, c: WChar): real {
    LineAdvance(v) + (if c == LF then LineAdvance(v) else 0.0)
  }

  /** The StringBuilder overload's pen after the first character. */
  function BuilderStart(v: FontView, c: WChar): BuilderPen
    requires ViewOk(v) && Resolves(v, c)
  {
    BuilderPen(GlyphFor(v, c).advance + v.spacing, StartY(v, c), NUL)
  }

  /** MeasureString(StringBuilder) before scaling: the final offset plus 4 in each direction. */
  function BuilderExtent(v: FontView, text: seq<WChar>): Result<Vec2, Exception>
    requires ViewOk(v)
  {
    if text == [] then Success(Vec2(0.0, 0.0))
    else if !Resolves(v, text[0]) || !AllResolve(v, text[1..]) then Failure(ArgumentException)
    else
      var p := BuilderWalk(v, BuilderStart(v, text[0]), text[1..]);
      Success(Vec2(p.x + 4.0, p.y + 4.0))
  }

  /** MeasureString(StringBuilder): the size the overload computes. */
  function BuilderSize(v: FontView, text: seq<WChar>): Result<Vec2, Exception>
    requires ViewOk(v)
  {
    ScaledResult(BuilderExtent(v, text), v.scale)
  }

  /** The string overload's loop state: `offset`, the current line `width` and the previous character. */
  datatype StringPen = StringPen(x: real, width: real, y: real, prev: WChar)

  /** The string overload's pen after the first character: its advance is the line's width so far. */
  function StringStart(v: FontView, c: WChar): StringPen
    requires ViewOk(v) && Resolves(v, c)
  {
    StringPen(0.0, GlyphFor(v, c).advance, StartY(v, c), NUL)
  }

  function StringStep(v: FontView, p: StringPen, ch: WChar): StringPen
    requires ViewOk(v)
  {
    if ch == CR then p
    else if ch == LF then StringPen(Max(p.x, p.width), 0.0, p.y + LineAdvance(v), p.prev)
    else if !Resolves(v, ch) then p
    else p.(width := p.width + PenAdvance(v, p.prev, ch), prev := ch)
  }

  function StringWalk(v: FontView, p: StringPen, s: seq<WChar>): StringPen
    requires ViewOk(v)
    decreases |s|
  {
    if s == [] then p
    else
      StringStep(v, StringWalk(v, p, s[..|s| - 1]), s[|s| - 1])
  }

  /** How many characters the string overload looks at. */
  function VisibleCount(n: int, maxLength: int): int {
    if maxLength != 0 && maxLength < n then maxLength else n
  }

  /** How many characters the string overload reads: the first one always. */
  function ReadCount(n: int, maxLength: int): int {
    var count := VisibleCount(n, maxLength);
    if count < 1 then 1 else count
  }

  /** The text the string overload measures: the first character is always read. */
  function Truncate(text: seq<WChar>, maxLength: int): (t: seq<WChar>)
    requires |text| > 0
    ensures 0 < |t| <= |text| && t == text[..|t|]
    ensures maxLength == 0 || maxLength >= |text| ==> t == text
    ensures 0 < maxLength < |text| ==> |t| == maxLength
    ensures maxLength < 0 ==> |t| == 1
  {
    text[..ReadCount(|text|, maxLength)]
  }

  /** MeasureString(string, out size, maxLength, preferredWidth): the size the overload computes. */
  function TextSize(v: FontView, text: seq<WChar>, maxLength: int): Result<Vec2, Exception>
    requires ViewOk(v)
  {
    ScaledResult(TextExtent(v, text, maxLength), v.scale)
  }

  /** The string overload before scaling: widest line and final offset, plus 4 in each direction. */
  function TextExtent(v: FontView, text: seq<WChar>, maxLength: int): Result<Vec2, Exception>
    requires ViewOk(v)
  {
    if text == [] then Success(Vec2(0.0, 0.0))
    else
      var t := Truncate(text, maxLength);
      if !Resolves(v, t[0]) || !AllResolve(v, t[1..]) then Failure(ArgumentException)
      else
        var p := StringWalk(v, StringStart(v, t[0]), t[1..]);
        Success(Vec2(Max(p.x, p.width) + 4.0, p.y + 4.0))
  }

  /**
   * Reference definition of the lines of a text: the width of each line, the
   * first one starting with the first character's advance. A LF opens a new
   * line at width 0; CR adds nothing; any other character adds its advance,
   * its kerning against the previous drawn character, and the spacing.
   */
  datatype Lines = Lines(widths: seq<real>, prev: WChar)

  function LinesStep(v: FontView, ls: Lines, ch: WChar): (r: Lines)
    requires ViewOk(v) && |ls.widths| > 0
    ensures |r.widths| > 0
  {
    if ch == CR then ls
    else if ch == LF then ls.(widths := ls.widths + [0.0])
    else if !Resolves(v, ch) then ls
    else
      var n := |ls.widths|;
      Lines(ls.widths[..n - 1] + [ls.widths[n - 1] + PenAdvance(v, ls.prev, ch)], ch)
  }

  function LinesWalk(v: FontView, ls: Lines, s: seq<WChar>): (r: Lines)
    requires ViewOk(v) && |ls.widths| > 0
    ensures |r.widths| > 0
    decreases |s|
  {
    if s == [] then ls
    else
      LinesStep(v, LinesWalk(v, ls, s[..|s| - 1]), s[|s| - 1])
  }

  function LineWidths(v: FontView, t: seq<WChar>): (ws: seq<real>)
    requires ViewOk(v) && |t| > 0 && Resolves(v, t[0])
    ensures |ws| > 0
  {
    LinesWalk(v, Lines([GlyphFor(v, t[0]).advance], NUL), t[1..]).widths
  }

  /** The widest of the widths, and 0 when all are negative or there are none. */
  function Widest(ws: seq<real>): (w: real)
    ensures w >= 0.0
    ensures forall i :: 0 <= i < |ws| ==> ws[i] <= w
    ensures w == 0.0 || exists i :: 0 <= i < |ws| && ws[i] == w
  {
    if ws == [] then 0.0
    else Max(Widest(ws[..|ws| - 1]), ws[|ws| - 1])
  }

  /** TextExtent unfolded: the walk from the first character's pen over the rest of the visible text. */
  lemma TextExtentIsWalk(v: FontView, text: seq<WChar>, maxLength: int)
    requires ViewOk(v) && |text| > 0
    requires var t := Truncate(text, maxLength); Resolves(v, t[0]) && AllResolve(v, t[1..])
    ensures var t := Truncate(text, maxLength);
            var q := StringWalk(v, StringStart(v, t[0]), t[1..]);
            TextExtent(v, text, maxLength) == Success(Vec2(Max(q.x, q.width) + 4.0, q.y + 4.0))
  {
  }

  /** BuilderExtent unfolded: the walk from the first character's pen over the rest of the text. */
  lemma BuilderExtentIsWalk(v: FontView, text: seq<WChar>)
    requires ViewOk(v) && |text| > 0 && Resolves(v, text[0]) && AllResolve(v, text[1..])
    ensures var q := BuilderWalk(v, BuilderStart(v, text[0]), text[1..]);
            BuilderExtent(v, text) == Success(Vec2(q.x + 4.0, q.y + 4.0))
  {
  }

  /** A character that resolves to no glyph makes the string overload fail; the first one is always looked up. */
  lemma TextExtentFailsAt(v: FontView, text: seq<WChar>, maxLength: int, n: nat, j: nat)
    requires ViewOk(v) && 0 < n <= |text| && n == ReadCount(|text|, maxLength)
    requires j < n && !Resolves(v, text[j]) && (j > 0 ==> text[j] != CR && text[j] != LF)
    ensures TextExtent(v, text, maxLength) == Failure(ArgumentException)
  {
    var t := Truncate(text, maxLength);
    assert t[j] == text[j];
    if j > 0 && AllResolve(v, t[1..]) {
      assert t[1..][j - 1] == t[j];
      AllResolveAt(v, t[1..], j - 1);
    }
  }

  /** TextExtentIsWalk over the visible prefix `text[..n]`, for the pen `q` the walk ends with. */
  lemma TextExtentIsPrefixWalk(v: FontView, text: seq<WChar>, maxLength: int, n: nat, q: StringPen)
    requires ViewOk(v) && 0 < n <= |text| && n == ReadCount(|text|, maxLength)
    requires Resolves(v, text[0]) && AllResolve(v, text[1..n])
    requires q == StringWalk(v, StringStart(v, text[0]), text[1..n])
    ensures TextExtent(v, text, maxLength) == Success(Vec2(Max(q.x, q.width) + 4.0, q.y + 4.0))
  {
    var t := Truncate(text, maxLength);
    assert t == text[..n] && t[1..] == text[1..n];
    TextExtentIsWalk(v, text, maxLength);
  }

  lemma BuilderExtentFailsAt(v: FontView, text: seq<WChar>, j: nat)
    requires ViewOk(v) && j < |text| && !Resolves(v, text[j]) && (j > 0 ==> text[j] != CR && text[j] != LF)
    ensures BuilderExtent(v, text) == Failure(ArgumentException)
  {
    if j > 0 && AllResolve(v, text[1..]) {
      assert text[1..][j - 1] == text[j];
      AllResolveAt(v, text[1..], j - 1);
    }
  }

  /** Walking one more character of the text after its first is one more step. */
  lemma StringWalkExtend(v: FontView, p: StringPen, text: seq<WChar>, i: nat)
    requires ViewOk(v) && 1 <= i < |text| && AllResolve(v, text[1..i])
    requires text[i] != CR && text[i] != LF ==> Resolves(v, text[i])
    ensures AllResolve(v, text[1..i + 1])
    ensures StringWalk(v, p, text[1..i + 1]) == StringStep(v, StringWalk(v, p, text[1..i]), text[i])
  {
    assert text[1..i + 1][..i - 1] == text[1..i];
  }

  lemma BuilderWalkExtend(v: FontView, p: BuilderPen, text: seq<WChar>, i: nat)
    requires ViewOk(v) && 1 <= i < |text| && AllResolve(v, text[1..i])
    requires text[i] != CR && text[i] != LF ==> Resolves(v, text[i])
    ensures AllResolve(v, text[1..i + 1])
    ensures BuilderWalk(v, p, text[1..i + 1]) == BuilderStep(v, BuilderWalk(v, p, text[1..i]), text[i])
  {
    assert text[1..i + 1][..i - 1] == text[1..i];
  }

  /** The pen's `x` is the widest finished line and `width` the current one. */
  predicate PenFollows(p: StringPen, ls: Lines)
    requires |ls.widths| > 0
  {
    var n := |ls.widths|;
    p.x == Widest(ls.widths[..n - 1]) && p.width == ls.widths[n - 1] && p.prev == ls.prev
  }

  lemma StringStepFollowsLines(v: FontView, p: StringPen, ls: Lines, ch: WChar)
    requires ViewOk(v) && |ls.widths| > 0 && PenFollows(p, ls)
    ensures PenFollows(StringStep(v, p, ch), LinesStep(v, ls, ch))
  {
    var n := |ls.widths|;
    if ch == LF {
      var ws := ls.widths + [0.0];
      assert ws[..|ws| - 1] == ls.widths;
      assert ls.widths == ls.widths[..n - 1] + [ls.widths[n - 1]];
    } else if ch != CR && Resolves(v, ch) {
      var ws := ls.widths[..n - 1] + [ls.widths[n - 1] + PenAdvance(v, ls.prev, ch)];
      assert ws[..|ws| - 1] == ls.widths[..n - 1];
    }
  }

  lemma {:induction false} StringWalkFollowsLines(v: FontView, p: StringPen, ls: Lines, s: seq<WChar>)
    requires ViewOk(v) && |ls.widths| > 0 && PenFollows(p, ls)
    ensures PenFollows(StringWalk(v, p, s), LinesWalk(v, ls, s))
  {
    if s != [] {
      var s': seq<WChar> := s[..|s| - 1];
      StringWalkFollowsLines(v, p, ls, s');
      StringStepFollowsLines(v, StringWalk(v, p, s'), LinesWalk(v, ls, s'), s[|s| - 1]);
    }
  }

  lemma {:induction false} BuilderWalkFollowsLines(v: FontView, p: BuilderPen, ls: Lines, s: seq<WChar>)
    requires ViewOk(v) && |ls.widths| > 0
    requires p.x == ls.widths[|ls.widths| - 1] + (if |ls.widths| == 1 then v.spacing else 0.0)
    requires p.prev == ls.prev
    ensures var q := BuilderWalk(v, p, s);
            var ws := LinesWalk(v, ls, s).widths;
            && q.x == ws[|ws| - 1] + (if |ws| == 1 then v.spacing else 0.0)
            && q.prev == LinesWalk(v, ls, s).prev
  {
    if s != [] {
      var s': seq<WChar> := s[..|s| - 1];
      BuilderWalkFollowsLines(v, p, ls, s');
    }
  }

  /** The string overload measures the widest line (never less than 0). */
  lemma TextSizeIsWidestLine(v: FontView, text: seq<WChar>, maxLength: int)
    requires ViewOk(v) && |text| > 0 && TextExtent(v, text, maxLength).Success?
    ensures var t := Truncate(text, maxLength);
            && Resolves(v, t[0]) && AllResolve(v, t[1..])
            && TextExtent(v, text, maxLength).value.x == Widest(LineWidths(v, t)) + 4.0
  {
    var t := Truncate(text, maxLength);
    TextExtentIsWalk(v, text, maxLength);
    var ls := Lines([GlyphFor(v, t[0]).advance], NUL);
    var p := StringStart(v, t[0]);
    assert ls.widths[..0] == [];
    assert PenFollows(p, ls);
    StringWalkFollowsLines(v, p, ls, t[1..]);
    var ws := LineWidths(v, t);
    assert ws == ws[..|ws| - 1] + [ws[|ws| - 1]];
  }

  /** The StringBuilder overload measures only the last line, plus Spacing when there is one line. */
  lemma BuilderSizeIsLastLine(v: FontView, text: seq<WChar>)
    requires ViewOk(v) && |text| > 0 && BuilderExtent(v, text).Success?
    ensures && Resolves(v, text[0]) && AllResolve(v, text[1..])
            && var ws := LineWidths(v, text);
               BuilderExtent(v, text).value.x == ws[|ws| - 1] + (if |ws| == 1 then v.spacing else 0.0) + 4.0
  {
    BuilderExtentIsWalk(v, text);
    var ls := Lines([GlyphFor(v, text[0]).advance], NUL);
    var p := BuilderStart(v, text[0]);
    BuilderWalkFollowsLines(v, p, ls, text[1..]);
  }

  /** Line count of the widths: one line plus one per LF after the first character. */
  lemma {:induction false} LinesCountLineFeeds(v: FontView, ls: Lines, s: seq<WChar>)
    requires ViewOk(v) && |ls.widths| > 0
    ensures |LinesWalk(v, ls, s).widths| == |ls.widths| + multiset(s)[LF]
  {
    if s != [] {
      var s': seq<WChar> := s[..|s| - 1];
      assert s == s' + [s[|s| - 1]];
      LinesCountLineFeeds(v, ls, s');
    }
  }

  /** `n` copies of `a` added up. */
  function Repeat(n: nat, a: real): real {
    if n == 0 then 0.0 else Repeat(n - 1, a) + a
  }

  lemma {:induction false} RepeatIsProduct(n: nat, a: real)
    ensures Repeat(n, a) == (n as real) * a
  {
    if n > 0 {
      RepeatIsProduct(n - 1, a);
    }
  }

  lemma {:induction false} RepeatSplit(n: nat, m: nat, a: real)
    ensures Repeat(n + m, a) == Repeat(m, a) + Repeat(n, a)
  {
    if n > 0 {
      RepeatSplit(n - 1, m, a);
    }
  }

  lemma {:induction false} BuilderWalkHeight(v: FontView, p: BuilderPen, s: seq<WChar>)
    requires ViewOk(v)
    ensures BuilderWalk(v, p, s).y == p.y + Repeat(multiset(s)[LF], LineAdvance(v))
  {
    if s != [] {
      var s': seq<WChar> := s[..|s| - 1];
      assert s == s' + [s[|s| - 1]];
      BuilderWalkHeight(v, p, s');
      var ch := s[|s| - 1];
      var n := multiset(s')[LF];
      assert multiset(s)[LF] == n + (if ch == LF then 1 else 0);
      var q := BuilderWalk(v, p, s');
      assert BuilderWalk(v, p, s) == BuilderStep(v, q, ch);
    }
  }

  lemma {:induction false} StringWalkHeight(v: FontView, p: StringPen, s: seq<WChar>)
    requires ViewOk(v)
    ensures StringWalk(v, p, s).y == p.y + Repeat(multiset(s)[LF], LineAdvance(v))
  {
    if s != [] {
      var s': seq<WChar> := s[..|s| - 1];
      assert s == s' + [s[|s| - 1]];
      StringWalkHeight(v, p, s');
      var ch := s[|s| - 1];
      var n := multiset(s')[LF];
      assert multiset(s)[LF] == n + (if ch == LF then 1 else 0);
      var q := StringWalk(v, p, s');
      assert StringWalk(v, p, s) == StringStep(v, q, ch);
    }
  }

  lemma HeightArithmetic(la: real, first: bool, n: nat, k: nat, y: real)
    requires y == la + (if first then la else 0.0) + Repeat(n, la)
    requires k == 1 + (if first then 1 else 0) + n
    ensures y == Repeat(k, la)
  {
    RepeatSplit(n, if first then 2 else 1, la);
  }

  /** Each LF, the first character included, adds LineSpacing + 1 to the height. */
  lemma BuilderHeightCountsLineFeeds(v: FontView, text: seq<WChar>)
    requires ViewOk(v) && |text| > 0 && BuilderExtent(v, text).Success?
    ensures BuilderExtent(v, text).value.y == Repeat(1 + multiset(text)[LF], LineAdvance(v)) + 4.0
  {
    BuilderExtentIsWalk(v, text);
    var la := LineAdvance(v);
    var p := BuilderStart(v, text[0]);
    BuilderWalkHeight(v, p, text[1..]);
    assert text == [text[0]] + text[1..];
    var y := BuilderWalk(v, p, text[1..]).y;
    assert multiset(text) == multiset([text[0]]) + multiset(text[1..]);
    assert BuilderExtent(v, text).value.y == y + 4.0;
    HeightArithmetic(la, text[0] == LF, multiset(text[1..])[LF], 1 + multiset(text)[LF], y);
  }

  lemma TextHeightCountsLineFeeds(v: FontView, text: seq<WChar>, maxLength: int)
    requires ViewOk(v) && |text| > 0 && TextExtent(v, text, maxLength).Success?
    ensures var t := Truncate(text, maxLength);
            TextExtent(v, text, maxLength).value.y == Repeat(1 + multiset(t)[LF], LineAdvance(v)) + 4.0
  {
    var t := Truncate(text, maxLength);
    TextExtentIsWalk(v, text, maxLength);
    var la := LineAdvance(v);
    var p := StringStart(v, t[0]);
    StringWalkHeight(v, p, t[1..]);
    assert t == [t[0]] + t[1..];
    var y := StringWalk(v, p, t[1..]).y;
    assert multiset(t) == multiset([t[0]]) + multiset(t[1..]);
    assert TextExtent(v, text, maxLength).value.y == y + 4.0;
    HeightArithmetic(la, t[0] == LF, multiset(t[1..])[LF], 1 + multiset(t)[LF], y);
  }

  lemma {:induction false} StringWalkAppend(v: FontView, p: StringPen, a: seq<WChar>, b: seq<WChar>)
    requires ViewOk(v)
    ensures StringWalk(v, p, a + b) == StringWalk(v, StringWalk(v, p, a), b)
  {
    if b == [] {
      assert a + b == a;
    } else {
      var b' := b[..|b| - 1];
      StringWalkAppend(v, p, a, b');
      assert (a + b)[..|a + b| - 1] == a + b';
    }
  }

  lemma {:induction false} BuilderWalkAppend(v: FontView, p: BuilderPen, a: seq<WChar>, b: seq<WChar>)
    requires ViewOk(v)
    ensures BuilderWalk(v, p, a + b) == BuilderWalk(v, BuilderWalk(v, p, a), b)
  {
    if b == [] {
      assert a + b == a;
    } else {
      var b' := b[..|b| - 1];
      BuilderWalkAppend(v, p, a, b');
      assert (a + b)[..|a + b| - 1] == a + b';
    }
  }

  lemma AllResolveSplit(v: FontView, a: seq<WChar>, b: seq<WChar>)
    requires ViewOk(v)
    ensures AllResolve(v, a + [CR] + b) <==> AllResolve(v, a) && AllResolve(v, b)
    ensures AllResolve(v, a + b) <==> AllResolve(v, a) && AllResolve(v, b)
  {
    AllResolveAppend(v, a + [CR], b);
    AllResolveAppend(v, a, b);
    assert (a + [CR])[..|a|] == a;
  }

  /** A CR after the first character changes nothing in the string overload's result. */
  lemma TextSizeIgnoresCarriageReturn(v: FontView, a: seq<WChar>, b: seq<WChar>)
    requires ViewOk(v) && |a| > 0
    ensures TextExtent(v, a + [CR] + b, 0) == TextExtent(v, a + b, 0)
    ensures TextSize(v, a + [CR] + b, 0) == TextSize(v, a + b, 0)
  {
    var t, u := a + [CR] + b, a + b;
    assert t[0] == a[0] && u[0] == a[0];
    assert t[1..] == a[1..] + [CR] + b;
    assert u[1..] == a[1..] + b;
    AllResolveSplit(v, a[1..], b);
    if Resolves(v, a[0]) && AllResolve(v, a[1..]) && AllResolve(v, b) {
      var p := StringStart(v, a[0]);
      StringWalkAppend(v, p, a[1..] + [CR], b);
      StringWalkAppend(v, p, a[1..], [CR]);
      StringWalkAppend(v, p, a[1..], b);
      assert [CR][..0] == [];
    }
  }

  /** A CR after the first character changes nothing in the StringBuilder overload's result. */
  lemma BuilderSizeIgnoresCarriageReturn(v: FontView, a: seq<WChar>, b: seq<WChar>)
    requires ViewOk(v) && |a| > 0
    ensures BuilderExtent(v, a + [CR] + b) == BuilderExtent(v, a + b)
    ensures BuilderSize(v, a + [CR] + b) == BuilderSize(v, a + b)
  {
    var t, u := a + [CR] + b, a + b;
    assert t[0] == a[0] && u[0] == a[0];
    assert t[1..] == a[1..] + [CR] + b;
    assert u[1..] == a[1..] + b;
    AllResolveSplit(v, a[1..], b);
    if Resolves(v, a[0]) && AllResolve(v, a[1..]) && AllResolve(v, b) {
      var p := BuilderStart(v, a[0]);
      BuilderWalkAppend(v, p, a[1..] + [CR], b);
      BuilderWalkAppend(v, p, a[1..], [CR]);
      BuilderWalkAppend(v, p, a[1..], b);
      assert [CR][..0] == [];
    }
  }

  /**
   * The previous character starts as NUL and is set only inside the loop, so
   * the second character is kerned against NUL and never against the first.
   */
  lemma FirstPairNeverKerned(v: FontView, a: WChar, b: WChar)
    requires ViewOk(v) && Resolves(v, a) && Resolves(v, b) && b != CR && b != LF
    ensures LineWidths(v, [a, b])
      == [GlyphFor(v, a).advance + GlyphFor(v, b).advance + GetKerning(v.kerning, NUL, b) as real + v.spacing]
  {
    var ls := Lines([GlyphFor(v, a).advance], NUL);
    assert [a, b][1..] == [b];
    assert [b][..0] == [];
    assert LinesWalk(v, ls, [b]) == LinesStep(v, ls, b);
  }

  class SpriteFont {
    const texture: Texture2D
    const characters: seq<WChar>
    const glyphs: seq<Glyph>
    const regions: seq<CharacterRegion>
    const kerning: KerningTable
    const scale: real
    var lineSpacing: int
    var spacing: real
    var defaultCharacter: Option<WChar>
    var defaultGlyphIndex: int

    function View(): FontView
      reads this
    {
      FontView(texture, characters, glyphs, kerning, lineSpacing, spacing, defaultGlyphIndex, scale)
    }

    ghost predicate Valid()
      reads this
    {
      && ViewOk(View())
      && Ascending(characters)
      && (forall i :: 0 <= i < |glyphs| ==> glyphs[i].character == characters[i])
      && RunsOf(regions, characters)
      && SlotConsistent(characters, DefaultSlot(defaultCharacter, defaultGlyphIndex))
    }

    /** The fields as the constructor leaves them before DefaultCharacter is set. */
    constructor Init(texture: Texture2D, characters: seq<WChar>, index: FontIndex, kerning: KerningTable,
                     lineSpacing: int, spacing: real, fontScale: real)
      requires |index.glyphs| == |characters| && Ascending(characters)
      requires forall i :: 0 <= i < |characters| ==> index.glyphs[i].character == characters[i]
      requires RunsOf(index.regions, characters)
      ensures Valid()
      ensures this.texture == texture && this.characters == characters
      ensures glyphs == index.glyphs && regions == index.regions
      ensures this.kerning == kerning && this.lineSpacing == lineSpacing && this.spacing == spacing
      ensures scale == fontScale && defaultCharacter == None && defaultGlyphIndex == -1
    {
      this.texture := texture;
      this.characters := characters;
      glyphs := index.glyphs;
      regions := index.regions;
      this.kerning := kerning;
      scale := fontScale;
      this.lineSpacing := lineSpacing;
      this.spacing := spacing;
      defaultCharacter := None;
      defaultGlyphIndex := -1;
    }

    /**
     * The public constructor: glyphs and regions from the parallel lists,
     * then the default character through its setter.
     */
    static method Create(texture: Texture2D, glyphBounds: seq<Rect>, cropping: seq<Rect>, characters: seq<WChar>,
                         lineSpacing: int, spacing: real, offsets: seq<Vec3>,
                         kerning: KerningTable, defaultCharacter: Option<WChar>, fontScale: real)
      returns (r: Result<SpriteFont, Exception>)
      ensures r.Success? <==>
        && |characters| <= ListsEnd(glyphBounds, cropping, offsets) && Ascending(characters)
        && (defaultCharacter.None? || defaultCharacter.value in characters)
      ensures r.Failure? ==>
        var k := ListsEnd(glyphBounds, cropping, offsets);
        r.error == if k < |characters| && AscendingUpTo(characters, k) then ArgumentOutOfRangeException
                   else if k < |characters| || !Ascending(characters) then InvalidOperationException
                   else ArgumentException
      ensures r.Success? ==>
        && fresh(r.value) && r.value.Valid()
        && r.value.texture == texture && r.value.characters == characters
        && (forall i :: 0 <= i < |characters| ==>
              r.value.glyphs[i] == MakeGlyph(characters[i], glyphBounds[i], cropping[i], offsets[i]))
        && r.value.kerning == kerning && r.value.lineSpacing == lineSpacing
        && r.value.spacing == spacing && r.value.scale == fontScale
        && r.value.defaultCharacter == defaultCharacter
    {
      var index :- BuildGlyphs(glyphBounds, cropping, characters, offsets);
      var font := new SpriteFont.Init(texture, characters, index, kerning, lineSpacing, spacing, fontScale);
      var o := font.SetDefaultCharacter(defaultCharacter);
      if o.Fail? {
        return Failure(o.error);
      }
      return Success(font);
    }

    /** The DefaultCharacter setter (with the correction described above). */
    method SetDefaultCharacter(value: Option<WChar>) returns (o: Outcome<Exception>)
      requires Valid()
      modifies this
      ensures Valid()
      ensures (DefaultSlot(defaultCharacter, defaultGlyphIndex), o)
        == SetDefault(characters, DefaultSlot(old(defaultCharacter), old(defaultGlyphIndex)), value)
      ensures lineSpacing == old(lineSpacing) && spacing == old(spacing)
    {
      if value.Some? {
        var found, index := TryGetGlyphIndex(value.value);
        if !found {
          return Fail(ArgumentException);
        }
        AscendingIndexUnique(characters, index, value.value);
        defaultGlyphIndex := index;
      } else {
        defaultGlyphIndex := -1;
      }
      defaultCharacter := value;
      return Pass;
    }

    /**
     * TryGetGlyphIndex: binary search of the regions. The first probe is the
     * interpolation guess kept inside the array, and an empty region array
     * finds nothing.
     */
    method TryGetGlyphIndex(c: WChar) returns (found: bool, index: int)
      requires Valid()
      ensures found <==> c in characters
      ensures found ==> 0 <= index < |characters| && characters[index] == c
      ensures !found ==> index == -1
    {
      if |regions| == 0 {
        return false, -1;
      }
      var regionIdx := -1;
      var l := 0;
      var r := |regions| - 1;
      var m := FirstProbe(regions, c);
      while l <= r
        invariant 0 <= l <= |regions| && -1 <= r < |regions|
        invariant l <= r ==> l <= m <= r
        invariant forall j :: 0 <= j < l ==> regions[j].end < c
        invariant forall j :: r < j < |regions| ==> regions[j].start > c
        decreases r - l
      {
        if regions[m].end < c {
          l := m + 1;
        } else if regions[m].start > c {
          r := m - 1;
        } else {
          regionIdx := m;
          break;
        }
        m := (l + r) / 2;
      }
      if regionIdx == -1 {
        forall i | 0 <= i < |characters|
          ensures characters[i] != c
        {
          assert InSomeRegion(regions, characters[i]);
        }
        return false, -1;
      }
      index := IndexIn(regions[regionIdx], c);
      found := true;
    }

    /** GetGlyphIndexOrDefault, by way of TryGetGlyphIndex. */
    method GetGlyphIndexOrDefault(c: WChar) returns (r: Result<nat, Exception>)
      requires Valid()
      ensures r == GlyphIndexOrDefault(View(), c)
    {
      var found, glyphIdx := TryGetGlyphIndex(c);
      if !found {
        if defaultGlyphIndex == -1 {
          return Failure(ArgumentException);
        }
        return Success(defaultGlyphIndex);
      }
      AscendingIndexUnique(characters, glyphIdx, c);
      return Success(glyphIdx);
    }

    /** MeasureString(StringBuilder): one pass keeping only the current line's width. */
    method MeasureStringBuilder(text: seq<WChar>) returns (size: Result<Vec2, Exception>)
      requires Valid()
      ensures size == BuilderSize(View(), text)
    {
      var count := |text|;
      if count == 0 {
        return Success(Vec2(0.0, 0.0));
      }
      ghost var v := View();
      var ch := text[0];
      var lineStep := lineSpacing + 1;
      var first := GetGlyphIndexOrDefault(ch);
      if first.Failure? {
        BuilderExtentFailsAt(v, text, 0);
        return Failure(first.error);
      }
      var pen := BuilderPen(glyphs[first.value].advance + spacing, lineStep as real, NUL);
      if ch == LF {
        pen := pen.(y := pen.y + lineStep as real);
      }
      ghost var p0 := BuilderStart(v, text[0]);
      assert text[1..1] == [] && pen == p0;
      var i := 1;
      while i < count
        invariant 1 <= i <= count
        invariant AllResolve(v, text[1..i])
        invariant pen == BuilderWalk(v, p0, text[1..i])
      {
        ch := text[i];
        var r := BuilderIteration(pen, ch);
        if r.Failure? {
          BuilderExtentFailsAt(v, text, i);
          return Failure(r.error);
        }
        assert r.value == BuilderStep(v, pen, ch);
        BuilderWalkExtend(v, p0, text, i);
        pen := r.value;
        i := i + 1;
      }
      assert text[1..i] == text[1..];
      BuilderExtentIsWalk(v, text);
      var extent := Vec2(pen.x + 4.0, pen.y + 4.0);
      assert BuilderExtent(v, text) == Success(extent);
      size := Success(Scaled(extent, scale));
    }

    /** One pass of the loop in MeasureString(StringBuilder): the pen after `ch`, or the lookup failure. */
    method BuilderIteration(p: BuilderPen, ch: WChar) returns (r: Result<BuilderPen, Exception>)
      requires Valid()
      ensures r.Failure? <==> ch != CR && ch != LF && !Resolves(View(), ch)
      ensures r.Failure? ==> r.error == ArgumentException
      ensures r.Success? ==> r.value == BuilderStep(View(), p, ch)
    {
      if ch == CR {
        return Success(p);
      } else if ch == LF {
        return Success(BuilderPen(0.0, p.y + (lineSpacing + 1) as real, p.prev));
      }
      var idx := GetGlyphIndexOrDefault(ch);
      if idx.Failure? {
        return Failure(idx.error);
      }
      var kern := GetKerning(kerning, p.prev, ch);
      return Success(BuilderPen(p.x + glyphs[idx.value].advance + kern as real + spacing, p.y, ch));
    }

    /** One pass of the loop in MeasureString(string): the pen after `ch`, or the lookup failure. */
    method StringIteration(p: StringPen, ch: WChar) returns (r: Result<StringPen, Exception>)
      requires Valid()
      ensures r.Failure? <==> ch != CR && ch != LF && !Resolves(View(), ch)
      ensures r.Failure? ==> r.error == ArgumentException
      ensures r.Success? ==> r.value == StringStep(View(), p, ch)
    {
      if ch == CR {
        return Success(p);
      } else if ch == LF {
        var x := p.x;
        if x < p.width {
          x := p.width;
        }
        return Success(StringPen(x, 0.0, p.y + (lineSpacing + 1) as real, p.prev));
      }
      var idx := GetGlyphIndexOrDefault(ch);
      if idx.Failure? {
        return Failure(idx.error);
      }
      var kern := GetKerning(kerning, p.prev, ch);
      return Success(p.(width := p.width + glyphs[idx.value].advance + kern as real + spacing, prev := ch));
    }

    /**
     * MeasureString(string, out size, maxLength, preferredWidth): the widest
     * line of the first maxLength characters (all of them when maxLength is 0
     * or not below the length). preferredWidth is not read.
     */
    method MeasureString(text: seq<WChar>, maxLength: int, preferredWidth: real)
      returns (size: Result<Vec2, Exception>)
      requires Valid()
      ensures size == TextSize(View(), text, maxLength)
    {
      var count := |text|;
      if count == 0 {
        return Success(Vec2(0.0, 0.0));
      }
      if maxLength != 0 && maxLength < count {
        count := maxLength;
      }
      ghost var v := View();
      ghost var n := if count < 1 then 1 else count;
      assert 0 < n <= |text| && n == ReadCount(|text|, maxLength);
      var ch := text[0];
      var lineStep := lineSpacing + 1;
      var first := GetGlyphIndexOrDefault(ch);
      if first.Failure? {
        TextExtentFailsAt(v, text, maxLength, n, 0);
        return Failure(first.error);
      }
      var pen := StringPen(0.0, glyphs[first.value].advance, lineStep as real, NUL);
      if ch == LF {
        pen := pen.(y := pen.y + lineStep as real);
      }
      ghost var p0 := StringStart(v, text[0]);
      assert text[1..1] == [] && pen == p0;
      var i := 1;
      while i < count
        invariant 1 <= i <= n
        invariant AllResolve(v, text[1..i])
        invariant pen == StringWalk(v, p0, text[1..i])
      {
        ch := text[i];
        var r := StringIteration(pen, ch);
        if r.Failure? {
          TextExtentFailsAt(v, text, maxLength, n, i);
          return Failure(r.error);
        }
        assert r.value == StringStep(v, pen, ch);
        StringWalkExtend(v, p0, text, i);
        pen := r.value;
        i := i + 1;
      }
      var x := pen.x;
      if x < pen.width {
        x := pen.width;
      }
      assert i == n;
      TextExtentIsPrefixWalk(v, text, maxLength, n, pen);
      var extent := Vec2(x + 4.0, pen.y + 4.0);
      size := Success(Scaled(extent, scale));
    }
  }
}
