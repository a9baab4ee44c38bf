/**
 * SpriteFontReader: decoding a font asset from the content stream.
 *
 * The stream is modelled one field at a time. A ReadObject or primitive read
 * takes the next field and fails with EndOfStreamException when none is
 * left, or with InvalidCastException when the field holds another type. The
 * fresh branch decodes every field and builds a SpriteFont from them; the
 * reload branch keeps the existing font.
 *
 * The decoding is specified by pure functions over the field sequence
 * (HeaderAt, KerningFrom, TrailerAt, DecodeFresh). The reading methods are
 * proved equal to them, and the functions are tied to an encoder of the
 * asset format by a round trip.
 */
module FontReading {
  import opened Wrappers
  import opened Numerics
  import opened SpriteFonts

  /** One object or primitive value of the content stream. */
  datatype Field =
    | TextureObject(texture: Texture2D)
    | RectList(rects: seq<Rect>)
    | CharList(chars: seq<WChar>)
    | ShortList(shorts: seq<Int16>)
    | Vec3List(vectors: seq<Vec3>)
    | Int32Value(int32: int)
    | SingleValue(single: real)
    | BooleanValue(boolean: bool)
    | CharValue(character: WChar)

  /** The type a read asks for. */
  datatype Kind =
    | TextureKind | RectListKind | CharListKind | ShortListKind | Vec3ListKind
    | Int32Kind | SingleKind | BooleanKind | CharKind

  function KindOf(f: Field): Kind {
    match f
    case TextureObject(_) => TextureKind
    case RectList(_) => RectListKind
    case CharList(_) => CharListKind
    case ShortList(_) => ShortListKind
    case Vec3List(_) => Vec3ListKind
    case Int32Value(_) => Int32Kind
    case SingleValue(_) => SingleKind
    case BooleanValue(_) => BooleanKind
    case CharValue(_) => CharKind
  }

  /** What a read of type `kind` at position `i` of the stream returns. */
  function At(fs: seq<Field>, i: nat, kind: Kind): Result<Field, Exception> {
    if |fs| <= i then Failure(EndOfStreamException)
    else if KindOf(fs[i]) != kind then Failure(InvalidCastException)
    else Success(fs[i])
  }

  /**
   * The content reader: the fields of the stream and the read position.
   * `position < |fields|` is the stream's `Length > Position`.
   */
  class ContentReader {
    const fields: seq<Field>
    var position: nat

    predicate Valid()
      reads this
    {
      position <= |fields|
    }

    constructor (fields: seq<Field>)
      ensures Valid() && this.fields == fields && position == 0
    {
      this.fields := fields;
      position := 0;
    }

    /** BaseStream.Length > BaseStream.Position */
    function HasMore(): (more: bool)
      reads this
      ensures more <==> position < |fields|
    {
      position < |fields|
    }

    /** ReadObject<T>, ReadInt32, ReadSingle, ReadBoolean or ReadChar: one field of the given type. */
    method Read(kind: Kind) returns (r: Result<Field, Exception>)
      requires Valid()
      modifies this
      ensures Valid()
      ensures r == At(fields, old(position), kind)
      ensures position == if r.Success? then old(position) + 1 else old(position)
    {
      if position == |fields| {
        return Failure(EndOfStreamException);
      }
      if KindOf(fields[position]) != kind {
        return Failure(InvalidCastException);
      }
      r := Success(fields[position]);
      position := position + 1;
    }
  }

  // ---------------------------------------------------------------------
  // The decoder, as functions over the field sequence
  // ---------------------------------------------------------------------

  /** The fields before the kerning rows: texture up to the left kerning characters. */
  datatype Header = Header(
    texture: Texture2D,
    glyphs: seq<Rect>,
    croppings: seq<Rect>,
    characters: seq<WChar>,
    lineSpacing: int,
    spacing: real,
    kerningLefts: seq<WChar>)

  function HeaderAt(fs: seq<Field>, s: nat): Result<Header, Exception> {
    var texture :- At(fs, s, TextureKind);
    var glyphs :- At(fs, s + 1, RectListKind);
    var croppings :- At(fs, s + 2, RectListKind);
    var characters :- At(fs, s + 3, CharListKind);
    var lineSpacing :- At(fs, s + 4, Int32Kind);
    var spacing :- At(fs, s + 5, SingleKind);
    var lefts :- At(fs, s + 6, CharListKind);
    Success(Header(texture.texture, glyphs.rects, croppings.rects, characters.chars,
                   lineSpacing.int32, spacing.single, lefts.chars))
  }

  /**
   * One kerning row: right character i maps to distance i, left to right,
   * so a repeated right character keeps its last distance.
   */
  function Row(rights: seq<WChar>, distances: seq<Int16>): map<WChar, Int16>
    requires |rights| <= |distances|
    decreases |rights|
  {
    if rights == [] then map[]
    else Row(rights[..|rights| - 1], distances)[rights[|rights| - 1] := distances[|rights| - 1]]
  }

  /**
   * The kerning rows from position `pos` on, one pair of lists per left
   * character, folded into `table`; a left character seen again replaces its
   * earlier row. Indexing a distance list shorter than its right list throws.
   */
  function KerningFrom(fs: seq<Field>, pos: nat, lefts: seq<WChar>, table: KerningTable): Result<KerningTable, Exception>
    decreases |lefts|
  {
    if lefts == [] then Success(table)
    else
      var rights :- At(fs, pos, CharListKind);
      var distances :- At(fs, pos + 1, ShortListKind);
      if |distances.shorts| < |rights.chars| then Failure(ArgumentOutOfRangeException)
      else KerningFrom(fs, pos + 2, lefts[1..], table[lefts[0] := Row(rights.chars, distances.shorts)])
  }

  /** The fields after the kerning rows, and the position after the last one read. */
  datatype Trailer = Trailer(offsets: seq<Vec3>, defaultCharacter: Option<WChar>, scale: real, end: nat)

  /** The default character: read only when the flag before it is set. */
  function DefaultAt(fs: seq<Field>, q: nat, flag: bool): Result<Option<WChar>, Exception> {
    if flag then
      var c :- At(fs, q, CharKind);
      Success(Some(c.character))
    else Success(None)
  }

  /** The scale: 1 at the end of the stream; otherwise up to two floats, the last one read wins. */
  function ScaleAt(fs: seq<Field>, q: nat): Result<(real, nat), Exception> {
    if |fs| <= q then Success((1.0, q))
    else
      var first :- At(fs, q, SingleKind);
      if |fs| <= q + 1 then Success((first.single, q + 1))
      else
        var second :- At(fs, q + 1, SingleKind);
        Success((second.single, q + 2))
  }

  function TrailerAt(fs: seq<Field>, p: nat): Result<Trailer, Exception> {
    var offsets :- At(fs, p, Vec3ListKind);
    var flag :- At(fs, p + 1, BooleanKind);
    var defaultCharacter :- DefaultAt(fs, p + 2, flag.boolean);
    var scaled :- ScaleAt(fs, if flag.boolean then p + 3 else p + 2);
    Success(Trailer(offsets.vectors, defaultCharacter, scaled.0, scaled.1))
  }

  /** Everything the fresh branch passes to the SpriteFont constructor. */
  datatype FontData = FontData(
    texture: Texture2D,
    glyphs: seq<Rect>,
    croppings: seq<Rect>,
    characters: seq<WChar>,
    lineSpacing: int,
    spacing: real,
    kerning: KerningTable,
    offsets: seq<Vec3>,
    defaultCharacter: Option<WChar>,
    scale: real)

  datatype Decoded = Decoded(font: FontData, end: nat)

  /** The fresh branch's reads, from position `s`. */
  function DecodeFresh(fs: seq<Field>, s: nat): Result<Decoded, Exception> {
    var h :- HeaderAt(fs, s);
    var kerning :- KerningFrom(fs, s + 7, h.kerningLefts, map[]);
    var t :- TrailerAt(fs, s + 7 + 2 * |h.kerningLefts|);
    Success(Decoded(FontData(h.texture, h.glyphs, h.croppings, h.characters, h.lineSpacing, h.spacing,
                             kerning, t.offsets, t.defaultCharacter, t.scale), t.end))
  }

  /**
   * The reload branch as written: after the spacing it reads the offsets
   * list straight away, with no kerning reads, and at most one trailing
   * float. The result is the position after the last field read.
   */
  function ReloadAsWritten(fs: seq<Field>, s: nat): Result<nat, Exception> {
    var texture :- At(fs, s, TextureKind);
    var glyphs :- At(fs, s + 1, RectListKind);
    var croppings :- At(fs, s + 2, RectListKind);
    var characters :- At(fs, s + 3, CharListKind);
    var lineSpacing :- At(fs, s + 4, Int32Kind);
    var spacing :- At(fs, s + 5, SingleKind);
    var offsets :- At(fs, s + 6, Vec3ListKind);
    var flag :- At(fs, s + 7, BooleanKind);
    var defaultCharacter :- DefaultAt(fs, s + 8, flag.boolean);
    var q := if flag.boolean then s + 9 else s + 8;
    if |fs| <= q then Success(q)
    else
      var scale :- At(fs, q, SingleKind);
      Success(q + 1)
  }

  // ---------------------------------------------------------------------
  // The asset format, as the content writer lays it out
  // ---------------------------------------------------------------------

  /** The kerning row written for one left character. */
  datatype KerningEntry = KerningEntry(left: WChar, rights: seq<WChar>, distances: seq<Int16>)

  /** A font asset; `scales` are the trailing floats (none in an asset older than the scale field). */
  datatype FontAsset = FontAsset(
    texture: Texture2D,
    glyphs: seq<Rect>,
    croppings: seq<Rect>,
    characters: seq<WChar>,
    lineSpacing: int,
    spacing: real,
    kerning: seq<KerningEntry>,
    offsets: seq<Vec3>,
    defaultCharacter: Option<WChar>,
    scales: seq<real>)

  function Lefts(es: seq<KerningEntry>): (ls: seq<WChar>)
    ensures |ls| == |es| && forall i :: 0 <= i < |es| ==> ls[i] == es[i].left
  {
    seq(|es|, i requires 0 <= i < |es| => es[i].left)
  }

  function KerningFields(es: seq<KerningEntry>): seq<Field>
    decreases |es|
  {
    if es == [] then []
    else [CharList(es[0].rights), ShortList(es[0].distances)] + KerningFields(es[1..])
  }

  function HeaderFields(a: FontAsset): seq<Field> {
    [TextureObject(a.texture), RectList(a.glyphs), RectList(a.croppings), CharList(a.characters),
     Int32Value(a.lineSpacing), SingleValue(a.spacing), CharList(Lefts(a.kerning))]
  }

  function DefaultFields(d: Option<WChar>): seq<Field> {
    if d.Some? then [BooleanValue(true), CharValue(d.value)] else [BooleanValue(false)]
  }

  function ScaleFields(scales: seq<real>): seq<Field> {
    seq(|scales|, i requires 0 <= i < |scales| => SingleValue(scales[i]))
  }

  function TrailerFields(a: FontAsset): seq<Field> {
    [Vec3List(a.offsets)] + DefaultFields(a.defaultCharacter) + ScaleFields(a.scales)
  }

  function Encode(a: FontAsset): seq<Field> {
    HeaderFields(a) + KerningFields(a.kerning) + TrailerFields(a)
  }

  // ---------------------------------------------------------------------
  // What the decoded kerning table means
  // ---------------------------------------------------------------------

  predicate Fits(e: KerningEntry) {
    |e.rights| <= |e.distances|
  }

  predicate AllFit(es: seq<KerningEntry>) {
    forall i :: 0 <= i < |es| ==> Fits(es[i])
  }

  /** The table the rows build, each row replacing any earlier row of the same left character. */
  function KerningOf(es: seq<KerningEntry>, table: KerningTable): KerningTable
    requires AllFit(es)
    decreases |es|
  {
    if es == [] then table
    else KerningOf(es[1..], table[es[0].left := Row(es[0].rights, es[0].distances)])
  }

  /** The right characters of a row are its keys. */
  lemma {:induction false} RowKeys(rights: seq<WChar>, distances: seq<Int16>, c: WChar)
    requires |rights| <= |distances|
    ensures c in Row(rights, distances) <==> c in rights
    decreases |rights|
  {
    if rights != [] {
      var front := rights[..|rights| - 1];
      RowKeys(front, distances, c);
      assert rights == front + [rights[|rights| - 1]];
    }
  }

  /** A right character maps to the distance at its last occurrence. */
  lemma {:induction false} RowLookup(rights: seq<WChar>, distances: seq<Int16>, i: nat)
    requires |rights| <= |distances| && i < |rights|
    requires forall j :: i < j < |rights| ==> rights[j] != rights[i]
    ensures rights[i] in Row(rights, distances) && Row(rights, distances)[rights[i]] == distances[i]
    decreases |rights|
  {
    if i < |rights| - 1 {
      RowLookup(rights[..|rights| - 1], distances, i);
    }
  }

  /** The kerning table has a row for every left character, and a left character's row is its last one. */
  lemma {:induction false} KerningOfLookup(es: seq<KerningEntry>, table: KerningTable, c: WChar)
    requires AllFit(es)
    ensures c in KerningOf(es, table) <==> c in table || c in Lefts(es)
    ensures forall i :: 0 <= i < |es| && es[i].left == c && (forall j :: i < j < |es| ==> es[j].left != c) ==>
      KerningOf(es, table)[c] == Row(es[i].rights, es[i].distances)
    ensures (forall i :: 0 <= i < |es| ==> es[i].left != c) && c in table ==> KerningOf(es, table)[c] == table[c]
    decreases |es|
  {
    if es != [] {
      var t' := table[es[0].left := Row(es[0].rights, es[0].distances)];
      KerningOfLookup(es[1..], t', c);
      assert Lefts(es) == [es[0].left] + Lefts(es[1..]);
      forall i | 0 <= i < |es| && es[i].left == c && (forall j :: i < j < |es| ==> es[j].left != c)
        ensures KerningOf(es, table)[c] == Row(es[i].rights, es[i].distances)
      {
        if 0 < i {
          assert es[1..][i - 1] == es[i];
          assert forall j :: i - 1 < j < |es| - 1 ==> es[1..][j].left != c by {
            forall j | i - 1 < j < |es| - 1 ensures es[1..][j].left != c {
              assert es[1..][j] == es[j + 1];
            }
          }
        } else {
          assert forall j :: 0 <= j < |es| - 1 ==> es[1..][j].left != c by {
            forall j | 0 <= j < |es| - 1 ensures es[1..][j].left != c {
              assert es[1..][j] == es[j + 1];
            }
          }
        }
      }
      if (forall i :: 0 <= i < |es| ==> es[i].left != c) && c in table {
        assert forall j :: 0 <= j < |es| - 1 ==> es[1..][j].left != c by {
          forall j | 0 <= j < |es| - 1 ensures es[1..][j].left != c {
            assert es[1..][j] == es[j + 1];
          }
        }
      }
    }
  }

  // ---------------------------------------------------------------------
  // The round trip
  // ---------------------------------------------------------------------

  /** Where KerningFields puts each entry's two lists. */
  lemma {:induction false} KerningFieldsAt(es: seq<KerningEntry>)
    ensures |KerningFields(es)| == 2 * |es|
    ensures forall i :: 0 <= i < |es| ==>
      KerningFields(es)[2 * i] == CharList(es[i].rights) && KerningFields(es)[2 * i + 1] == ShortList(es[i].distances)
    decreases |es|
  {
    if es != [] {
      KerningFieldsAt(es[1..]);
      forall i | 1 <= i < |es|
        ensures KerningFields(es)[2 * i] == CharList(es[i].rights)
        ensures KerningFields(es)[2 * i + 1] == ShortList(es[i].distances)
      {
        assert es[1..][i - 1] == es[i];
      }
    }
  }

  /** Decoding laid-out kerning rows gives the table they build, or the indexing failure of a short distance list. */
  lemma {:induction false} KerningFromFields(fs: seq<Field>, p: nat, es: seq<KerningEntry>, table: KerningTable)
    requires p + 2 * |es| <= |fs|
    requires forall i :: 0 <= i < |es| ==>
      fs[p + 2 * i] == CharList(es[i].rights) && fs[p + 2 * i + 1] == ShortList(es[i].distances)
    ensures KerningFrom(fs, p, Lefts(es), table)
      == if AllFit(es) then Success(KerningOf(es, table)) else Failure(ArgumentOutOfRangeException)
    decreases |es|
  {
    if es != [] {
      assert fs[p] == CharList(es[0].rights) && fs[p + 1] == ShortList(es[0].distances);
      assert Lefts(es)[1..] == Lefts(es[1..]);
      assert AllFit(es) <==> Fits(es[0]) && AllFit(es[1..]) by {
        if Fits(es[0]) && AllFit(es[1..]) {
          forall i | 1 <= i < |es| ensures Fits(es[i]) {
            assert es[1..][i - 1] == es[i];
          }
        }
      }
      if Fits(es[0]) {
        forall i | 0 <= i < |es| - 1
          ensures fs[p + 2 + 2 * i] == CharList(es[1..][i].rights)
          ensures fs[p + 2 + 2 * i + 1] == ShortList(es[1..][i].distances)
        {
          assert es[1..][i] == es[i + 1];
          assert p + 2 + 2 * i == p + 2 * (i + 1);
        }
        KerningFromFields(fs, p + 2, es[1..], table[es[0].left := Row(es[0].rights, es[0].distances)]);
      }
    }
  }

  /** The scale an asset's trailing floats give: 1 when there are none, otherwise the second if there is one. */
  function ScaleOf(scales: seq<real>): real {
    if |scales| == 0 then 1.0 else if |scales| == 1 then scales[0] else scales[1]
  }

  /** The position after the fields the fresh branch reads from an encoded asset. */
  function EncodedEnd(a: FontAsset): nat {
    8 + 2 * |a.kerning| + |DefaultFields(a.defaultCharacter)| + Min(|a.scales|, 2)
  }

  /** Decoding the trailer fields of an asset at the end of the stream. */
  lemma TrailerFromFields(fs: seq<Field>, p: nat, a: FontAsset)
    requires p == 7 + 2 * |a.kerning| && p <= |fs| && fs[p..] == TrailerFields(a)
    ensures TrailerAt(fs, p) == Success(Trailer(a.offsets, a.defaultCharacter, ScaleOf(a.scales), EncodedEnd(a)))
  {
    var d := DefaultFields(a.defaultCharacter);
    var q := p + 1 + |d|;
    assert fs[p] == fs[p..][0];
    assert fs[p + 1] == fs[p..][1];
    if a.defaultCharacter.Some? {
      assert fs[p + 2] == fs[p..][2];
    }
    assert |fs| == q + |a.scales|;
    forall k | 0 <= k < |a.scales| ensures fs[q + k] == SingleValue(a.scales[k]) {
      assert fs[q + k] == fs[p..][1 + |d| + k];
    }
  }

  /** The asset a well-formed encoding decodes to. */
  function Expected(a: FontAsset): FontData
    requires AllFit(a.kerning)
  {
    FontData(a.texture, a.glyphs, a.croppings, a.characters, a.lineSpacing, a.spacing,
             KerningOf(a.kerning, map[]), a.offsets, a.defaultCharacter, ScaleOf(a.scales))
  }

  /** What the reader makes of an asset's kerning rows: their table, or the indexing failure. */
  function KerningResult(es: seq<KerningEntry>): Result<KerningTable, Exception> {
    if AllFit(es) then Success(KerningOf(es, map[])) else Failure(ArgumentOutOfRangeException)
  }

  /** What the fresh branch should make of an encoded asset. */
  function ExpectedDecode(a: FontAsset): Result<Decoded, Exception> {
    if AllFit(a.kerning) then Success(Decoded(Expected(a), EncodedEnd(a)))
    else Failure(ArgumentOutOfRangeException)
  }

  /**
   * The round trip: the fresh branch decodes every encoded asset back to
   * its fields, its kerning rows folded into the table, and consumes the
   * whole stream when it holds at most two trailing floats; an asset with a
   * distance list shorter than its right-character list fails.
   */
  lemma DecodeEncode(a: FontAsset)
    ensures DecodeFresh(Encode(a), 0) == ExpectedDecode(a)
    ensures |a.scales| <= 2 ==> EncodedEnd(a) == |Encode(a)|
  {
    EncodedHeader(a);
    EncodedKerning(a);
    EncodedTrailer(a);
    DecodeFreshFrom(Encode(a), a);
  }

  /** DecodeFresh from what its three parts return on a stream laid out like `a`. */
  lemma DecodeFreshFrom(fs: seq<Field>, a: FontAsset)
    requires HeaderAt(fs, 0) == Success(Header(a.texture, a.glyphs, a.croppings, a.characters,
                                                a.lineSpacing, a.spacing, Lefts(a.kerning)))
    requires KerningFrom(fs, 7, Lefts(a.kerning), map[]) == KerningResult(a.kerning)
    requires AllFit(a.kerning) ==>
      TrailerAt(fs, 7 + 2 * |a.kerning|) == Success(Trailer(a.offsets, a.defaultCharacter, ScaleOf(a.scales), EncodedEnd(a)))
    ensures DecodeFresh(fs, 0) == ExpectedDecode(a)
  {
  }

  /** The header fields of `a` at the start of the stream decode to its header. */
  lemma HeaderFromFields(fs: seq<Field>, a: FontAsset)
    requires 7 <= |fs| && fs[..7] == HeaderFields(a)
    ensures HeaderAt(fs, 0) == Success(Header(a.texture, a.glyphs, a.croppings, a.characters,
                                               a.lineSpacing, a.spacing, Lefts(a.kerning)))
  {
    assert forall i :: 0 <= i < 7 ==> fs[i] == HeaderFields(a)[i];
  }

  /** The kerning fields of `a` after its header decode to its kerning table. */
  lemma KerningLaidOut(fs: seq<Field>, a: FontAsset)
    requires 7 + 2 * |a.kerning| <= |fs| && fs[7..7 + 2 * |a.kerning|] == KerningFields(a.kerning)
    ensures KerningFrom(fs, 7, Lefts(a.kerning), map[]) == KerningResult(a.kerning)
  {
    var es := a.kerning;
    KerningFieldsAt(es);
    forall i | 0 <= i < |es|
      ensures fs[7 + 2 * i] == CharList(es[i].rights) && fs[7 + 2 * i + 1] == ShortList(es[i].distances)
    {
      assert fs[7 + 2 * i] == fs[7..7 + 2 * |es|][2 * i];
      assert fs[7 + 2 * i + 1] == fs[7..7 + 2 * |es|][2 * i + 1];
    }
    KerningFromFields(fs, 7, es, map[]);
  }

  lemma EncodedHeader(a: FontAsset)
    ensures HeaderAt(Encode(a), 0) == Success(Header(a.texture, a.glyphs, a.croppings, a.characters,
                                                     a.lineSpacing, a.spacing, Lefts(a.kerning)))
  {
    assert Encode(a)[..7] == HeaderFields(a);
    HeaderFromFields(Encode(a), a);
  }

  lemma EncodedKerning(a: FontAsset)
    ensures KerningFrom(Encode(a), 7, Lefts(a.kerning), map[]) == KerningResult(a.kerning)
  {
    KerningFieldsAt(a.kerning);
    assert Encode(a)[7..7 + 2 * |a.kerning|] == KerningFields(a.kerning);
    KerningLaidOut(Encode(a), a);
  }

  lemma EncodedTrailer(a: FontAsset)
    ensures TrailerAt(Encode(a), 7 + 2 * |a.kerning|)
      == Success(Trailer(a.offsets, a.defaultCharacter, ScaleOf(a.scales), EncodedEnd(a)))
    ensures |a.scales| <= 2 ==> EncodedEnd(a) == |Encode(a)|
  {
    KerningFieldsAt(a.kerning);
    assert Encode(a)[7 + 2 * |a.kerning|..] == TrailerFields(a);
    TrailerFromFields(Encode(a), 7 + 2 * |a.kerning|, a);
  }

  /** The stream of an asset cut off after its offsets. */
  function Truncated(a: FontAsset): seq<Field> {
    HeaderFields(a) + KerningFields(a.kerning) + [Vec3List(a.offsets)]
  }

  /**
   * An asset written before the default-character field (the stream ends
   * after the offsets) is not read: the flag is read without a length check.
   */
  lemma TruncatedAssetFails(a: FontAsset)
    requires AllFit(a.kerning)
    ensures DecodeFresh(Truncated(a), 0) == Failure(EndOfStreamException)
  {
    var fs := Truncated(a);
    KerningFieldsAt(a.kerning);
    assert fs[..7] == HeaderFields(a);
    HeaderFromFields(fs, a);
    assert fs[7..7 + 2 * |a.kerning|] == KerningFields(a.kerning);
    KerningLaidOut(fs, a);
    assert |fs| == 8 + 2 * |a.kerning| && fs[7 + 2 * |a.kerning|] == Vec3List(a.offsets);
    TruncatedTrailer(fs, 7 + 2 * |a.kerning|, a.offsets);
  }

  /** An offsets list as the last field: the default-character flag is missing. */
  lemma TruncatedTrailer(fs: seq<Field>, p: nat, offsets: seq<Vec3>)
    requires |fs| == p + 1 && fs[p] == Vec3List(offsets)
    ensures TrailerAt(fs, p) == Failure(EndOfStreamException)
  {
  }

  /** The reload branch as written fails on every encoded asset: it reads the kerning list as the offsets. */
  lemma ReloadAsWrittenRejectsEveryAsset(a: FontAsset)
    ensures ReloadAsWritten(Encode(a), 0) == Failure(InvalidCastException)
  {
    assert Encode(a)[6] == CharList(Lefts(a.kerning));
  }

  /**
   * GetKerning on a decoded asset returns the distance written last for the
   * pair: in the last row of the left character, at the last occurrence of
   * the right character. A pair with NUL on either side gives 0.
   */
  lemma DecodedKerningIsLastWritten(a: FontAsset, i: nat, k: nat)
    requires AllFit(a.kerning) && i < |a.kerning|
    requires forall j :: i < j < |a.kerning| ==> a.kerning[j].left != a.kerning[i].left
    requires k < |a.kerning[i].rights|
    requires forall j :: k < j < |a.kerning[i].rights| ==> a.kerning[i].rights[j] != a.kerning[i].rights[k]
    ensures DecodeFresh(Encode(a), 0).Success?
    ensures GetKerning(DecodeFresh(Encode(a), 0).value.font.kerning, a.kerning[i].left, a.kerning[i].rights[k])
      == if a.kerning[i].left == NUL || a.kerning[i].rights[k] == NUL then 0 else a.kerning[i].distances[k]
  {
    var e := a.kerning[i];
    DecodeEncode(a);
    KerningOfLookup(a.kerning, map[], e.left);
    assert Fits(e);
    RowLookup(e.rights, e.distances, k);
  }

  /**
   * GetKerning on a decoded asset gives 0 for a left character with no row,
   * and for a right character missing from the left character's last row.
   */
  lemma DecodedKerningUnwritten(a: FontAsset, prev: WChar, c: WChar)
    requires AllFit(a.kerning)
    ensures DecodeFresh(Encode(a), 0).Success?
    ensures prev !in Lefts(a.kerning) ==> GetKerning(DecodeFresh(Encode(a), 0).value.font.kerning, prev, c) == 0
    ensures forall i :: (0 <= i < |a.kerning| && a.kerning[i].left == prev && c !in a.kerning[i].rights
        && (forall j :: i < j < |a.kerning| ==> a.kerning[j].left != prev)) ==>
      GetKerning(DecodeFresh(Encode(a), 0).value.font.kerning, prev, c) == 0
  {
    DecodeEncode(a);
    KerningOfLookup(a.kerning, map[], prev);
    forall i | 0 <= i < |a.kerning| && a.kerning[i].left == prev && c !in a.kerning[i].rights
        && (forall j :: i < j < |a.kerning| ==> a.kerning[j].left != prev)
      ensures GetKerning(DecodeFresh(Encode(a), 0).value.font.kerning, prev, c) == 0
    {
      assert Fits(a.kerning[i]);
      RowKeys(a.kerning[i].rights, a.kerning[i].distances, c);
    }
  }

  // ---------------------------------------------------------------------
  // The reader
  // ---------------------------------------------------------------------

  /** The inner kerning loop: one row, failing at the first right character without a distance. */
  method BuildRow(rights: seq<WChar>, distances: seq<Int16>) returns (r: Result<map<WChar, Int16>, Exception>)
    ensures |rights| <= |distances| ==> r == Success(Row(rights, distances))
    ensures |distances| < |rights| ==> r == Failure(ArgumentOutOfRangeException)
  {
    var row := map[];
    var i := 0;
    while i < |rights|
      invariant 0 <= i <= |rights| && i <= |distances|
      invariant row == Row(rights[..i], distances)
    {
      if i == |distances| {
        return Failure(ArgumentOutOfRangeException);
      }
      row := row[rights[i] := distances[i]];
      i := i + 1;
      assert rights[..i][..i - 1] == rights[..i - 1];
    }
    assert rights[..i] == rights;
    return Success(row);
  }

  method ReadHeader(input: ContentReader) returns (r: Result<Header, Exception>)
    requires input.Valid()
    modifies input
    ensures input.Valid()
    ensures r == HeaderAt(input.fields, old(input.position))
    ensures r.Success? ==> input.position == old(input.position) + 7
  {
    var texture :- input.Read(TextureKind);
    var glyphs :- input.Read(RectListKind);
    var croppings :- input.Read(RectListKind);
    var characters :- input.Read(CharListKind);
    var lineSpacing :- input.Read(Int32Kind);
    var spacing :- input.Read(SingleKind);
    var lefts :- input.Read(CharListKind);
    return Success(Header(texture.texture, glyphs.rects, croppings.rects, characters.chars,
                          lineSpacing.int32, spacing.single, lefts.chars));
  }

  /** The kerning loop: a row per left character, each stored under its left character. */
  method ReadKerning(input: ContentReader, lefts: seq<WChar>) returns (r: Result<KerningTable, Exception>)
    requires input.Valid()
    modifies input
    ensures input.Valid()
    ensures r == KerningFrom(input.fields, old(input.position), lefts, map[])
    ensures r.Success? ==> input.position == old(input.position) + 2 * |lefts|
  {
    ghost var p0 := input.position;
    var kerning: KerningTable := map[];
    var k := 0;
    while k < |lefts|
      invariant input.Valid() && 0 <= k <= |lefts|
      invariant input.position == p0 + 2 * k
      invariant KerningFrom(input.fields, p0, lefts, map[])
        == KerningFrom(input.fields, input.position, lefts[k..], kerning)
    {
      assert lefts[k..][0] == lefts[k] && lefts[k..][1..] == lefts[k + 1..];
      var rightChars :- input.Read(CharListKind);
      var distances :- input.Read(ShortListKind);
      var row :- BuildRow(rightChars.chars, distances.shorts);
      kerning := kerning[lefts[k] := row];
      k := k + 1;
    }
    return Success(kerning);
  }

  method ReadTrailer(input: ContentReader) returns (r: Result<Trailer, Exception>)
    requires input.Valid()
    modifies input
    ensures input.Valid()
    ensures r == TrailerAt(input.fields, old(input.position))
    ensures r.Success? ==> input.position == r.value.end
  {
    var offsets :- input.Read(Vec3ListKind);
    var defaultCharacter: Option<WChar> := None;
    var scale := 1.0;
    var flag :- input.Read(BooleanKind);
    if flag.boolean {
      var c :- input.Read(CharKind);
      defaultCharacter := Some(c.character);
    }
    if input.HasMore() {
      var s :- input.Read(SingleKind);
      scale := s.single;
    }
    if input.HasMore() {
      var s :- input.Read(SingleKind);
      scale := s.single;
    }
    return Success(Trailer(offsets.vectors, defaultCharacter, scale, input.position));
  }

  /** Every read of the fresh branch, in order. */
  method ReadFontData(input: ContentReader) returns (r: Result<Decoded, Exception>)
    requires input.Valid()
    modifies input
    ensures input.Valid()
    ensures r == DecodeFresh(input.fields, old(input.position))
    ensures r.Success? ==> input.position == r.value.end
  {
    var h :- ReadHeader(input);
    var kerning :- ReadKerning(input, h.kerningLefts);
    var t :- ReadTrailer(input);
    return Success(Decoded(FontData(h.texture, h.glyphs, h.croppings, h.characters, h.lineSpacing, h.spacing,
                                    kerning, t.offsets, t.defaultCharacter, t.scale), t.end));
  }

  /**
   * SpriteFontReader.Read. Without an existing instance, a new SpriteFont
   * from the decoded fields; with one, the same fields are consumed (the
   * correction described in the README) and the existing font is returned.
   */
  method Read(input: ContentReader, existingInstance: Option<SpriteFont>) returns (r: Result<SpriteFont, Exception>)
    requires input.Valid()
    modifies input
    ensures input.Valid()
    ensures DecodeFresh(input.fields, old(input.position)).Failure? ==>
      r == Failure(DecodeFresh(input.fields, old(input.position)).error)
    ensures DecodeFresh(input.fields, old(input.position)).Success? ==>
      input.position == DecodeFresh(input.fields, old(input.position)).value.end
    ensures DecodeFresh(input.fields, old(input.position)).Success? && existingInstance.Some? ==>
      r == Success(existingInstance.value)
    ensures DecodeFresh(input.fields, old(input.position)).Success? && existingInstance.None? ==>
      var f := DecodeFresh(input.fields, old(input.position)).value.font;
      && (r.Success? <==>
            && |f.characters| <= ListsEnd(f.glyphs, f.croppings, f.offsets) && Ascending(f.characters)
            && (f.defaultCharacter.None? || f.defaultCharacter.value in f.characters))
      && (r.Success? ==>
            && fresh(r.value) && r.value.Valid()
            && r.value.texture == f.texture && r.value.characters == f.characters
            && (forall i :: 0 <= i < |f.characters| ==>
                  r.value.glyphs[i] == MakeGlyph(f.characters[i], f.glyphs[i], f.croppings[i], f.offsets[i]))
            && r.value.kerning == f.kerning && r.value.lineSpacing == f.lineSpacing
            && r.value.spacing == f.spacing && r.value.scale == f.scale
            && r.value.defaultCharacter == f.defaultCharacter)
  {
    var d :- ReadFontData(input);
    if existingInstance.Some? {
      return Success(existingInstance.value);
    }
    var f := d.font;
    r := SpriteFont.Create(f.texture, f.glyphs, f.croppings, f.characters, f.lineSpacing, f.spacing,
                           f.offsets, f.kerning, f.defaultCharacter, f.scale);
  }
}
