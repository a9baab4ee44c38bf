/**
 * SpriteBatch: the Begin/End session, the draw calls that add items to the
 * batcher, the immediate-mode flush, and the text layout of DrawString.
 *
 * The batcher is modelled by what can be observed of it here: the items
 * created so far (append-only) and the log of its DrawBatch calls. Vertex
 * geometry of sprites (rotation, scale, flips, matrices) is not modelled; a
 * glyph item records the point its quad starts from.
 */
module SpriteBatches {
  import opened Wrappers
  import opened Numerics
  import opened SpriteFonts

  datatype SortMode = Deferred | Immediate | Texture | BackToFront | FrontToBack

  /** What an item's vertices are set from. */
  datatype Shape =
    | Sprite(depth: real)
    | Vertices
    | GlyphQuad(x: real, y: real, bounds: Rect, depth: real)
    | GlyphCell(x: real, y: real, width: real, height: real)

  /**
   * One batch item. `sortKey` is None where the draw call does not assign it
   * (the pooled item keeps whatever key it had).
   */
  datatype BatchItem = BatchItem(texture: Option<Texture2D>, sortKey: Option<real>, shape: Shape)

  /** One DrawBatch call: the sort mode and how many items had been created by then. */
  datatype DrawCall = DrawCall(mode: SortMode, itemCount: nat)

  datatype BatchState = BatchState(beginCalled: bool, sortMode: SortMode, items: seq<BatchItem>, drawn: seq<DrawCall>)

  // ---------------------------------------------------------------- session

  /** Begin: refused while a session is open; otherwise records the mode and opens one. */
  function BeginStep(s: BatchState, mode: SortMode): (BatchState, Outcome<Exception>) {
    if s.beginCalled then (s, Fail(InvalidOperationException))
    else (s.(beginCalled := true, sortMode := mode), Pass)
  }

  /** End: refused without a session; otherwise closes it and draws the batch once. */
  function EndStep(s: BatchState): (BatchState, Outcome<Exception>) {
    if !s.beginCalled then (s, Fail(InvalidOperationException))
    else (s.(beginCalled := false, drawn := s.drawn + [DrawCall(s.sortMode, |s.items|)]), Pass)
  }

  /** FlushIfNeeded: one DrawBatch call in Immediate mode, nothing otherwise. */
  function Flush(s: BatchState): BatchState {
    if s.sortMode == Immediate then s.(drawn := s.drawn + [DrawCall(Immediate, |s.items|)]) else s
  }

  /** A session opened by Begin and closed by End draws exactly once, with the mode Begin gave. */
  lemma BeginThenEnd(s: BatchState, mode: SortMode)
    requires !s.beginCalled
    ensures BeginStep(s, mode).1 == Pass
    ensures var e := EndStep(BeginStep(s, mode).0);
            && e.1 == Pass && !e.0.beginCalled && e.0.items == s.items
            && e.0.drawn == s.drawn + [DrawCall(mode, |s.items|)]
  {
  }

  /** Begin twice without End: the second call throws and changes nothing. */
  lemma BeginTwiceFails(s: BatchState, m1: SortMode, m2: SortMode)
    requires BeginStep(s, m1).1 == Pass
    ensures var t := BeginStep(s, m1).0;
            BeginStep(t, m2) == (t, Fail(InvalidOperationException))
  {
  }

  /** Begin succeeds exactly when End would not, and each success flips the session flag. */
  lemma SessionAlternates(s: BatchState, mode: SortMode)
    ensures BeginStep(s, mode).1.Pass? <==> EndStep(s).1.Fail?
    ensures BeginStep(s, mode).1.Pass? ==> BeginStep(s, mode).0.beginCalled
    ensures EndStep(s).1.Pass? ==> !EndStep(s).0.beginCalled
    ensures BeginStep(s, mode).1.Fail? ==> BeginStep(s, mode).0 == s
    ensures EndStep(s).1.Fail? ==> EndStep(s).0 == s
  {
  }

  // ---------------------------------------------------------------- checks and keys

  /** CheckValid(Texture2D). */
  function CheckTexture(s: BatchState, texture: Option<Texture2D>): Outcome<Exception> {
    if texture.None? then Fail(ArgumentNullException)
    else if !s.beginCalled then Fail(InvalidOperationException)
    else Pass
  }

  /** CheckValid(SpriteFont, string) and CheckValid(SpriteFont, StringBuilder). */
  function CheckText(s: BatchState, hasFont: bool, hasText: bool): Outcome<Exception> {
    if !hasFont then Fail(ArgumentNullException)
    else if !hasText then Fail(ArgumentNullException)
    else if !s.beginCalled then Fail(InvalidOperationException)
    else Pass
  }

  /** The sort-key switch: Texture, FrontToBack and BackToFront assign a key; other modes do not. */
  function SwitchKey(mode: SortMode, texture: Texture2D, layerDepth: real): (k: Option<real>)
    ensures k.Some? <==> mode in {Texture, FrontToBack, BackToFront}
  {
    match mode
    case Texture => Some(texture.sortingKey as real)
    case FrontToBack => Some(layerDepth)
    case BackToFront => Some(-layerDepth)
    case _ => None
  }

  /** The short Draw overloads and the plain DrawString: the texture's key in Texture mode, 0 otherwise. */
  function PlainKey(mode: SortMode, texture: Texture2D): real {
    if mode == Texture then texture.sortingKey as real else 0.0
  }

  /** The transformed DrawString overloads start from key 0 and then run the switch. */
  function TextKey(mode: SortMode, texture: Texture2D, layerDepth: real): real {
    match SwitchKey(mode, texture, layerDepth)
    case Some(k) => k
    case None => 0.0
  }

  /** FrontToBack keys follow the depth; BackToFront keys run against it; Texture keys ignore it. */
  lemma DepthKeysOrder(texture: Texture2D, d1: real, d2: real)
    requires d1 < d2
    ensures SwitchKey(FrontToBack, texture, d1).value < SwitchKey(FrontToBack, texture, d2).value
    ensures SwitchKey(BackToFront, texture, d1).value > SwitchKey(BackToFront, texture, d2).value
    ensures SwitchKey(Texture, texture, d1) == SwitchKey(Texture, texture, d2)
  {
  }

  // ---------------------------------------------------------------- sprites

  /**
   * The full Draw overloads (position or destination rectangle, with
   * rotation, origin, scale, effects and depth): check, one item keyed by
   * the switch, flush.
   */
  function DrawSpriteStep(s: BatchState, texture: Option<Texture2D>, layerDepth: real): (BatchState, Outcome<Exception>) {
    var o := CheckTexture(s, texture);
    if o.Fail? then (s, o)
    else
      var item := BatchItem(texture, SwitchKey(s.sortMode, texture.value, layerDepth), Sprite(layerDepth));
      (Flush(s.(items := s.items + [item])), Pass)
  }

  /** The short Draw overloads (position or rectangle, optional source, colour): depth 0. */
  function DrawPlainSpriteStep(s: BatchState, texture: Option<Texture2D>): (BatchState, Outcome<Exception>) {
    var o := CheckTexture(s, texture);
    if o.Fail? then (s, o)
    else
      var item := BatchItem(texture, Some(PlainKey(s.sortMode, texture.value)), Sprite(0.0));
      (Flush(s.(items := s.items + [item])), Pass)
  }

  /** The Draw overloads taking the four vertices: no check and no flush. */
  function DrawVerticesStep(s: BatchState, texture: Option<Texture2D>): BatchState {
    s.(items := s.items + [BatchItem(texture, None, Vertices)])
  }

  /**
   * A checked draw call either throws before creating anything or adds
   * exactly one item; it draws the batch once in Immediate mode and never
   * otherwise.
   */
  lemma CheckedDrawAddsOneItem(s: BatchState, texture: Option<Texture2D>, layerDepth: real)
    ensures var r := DrawSpriteStep(s, texture, layerDepth);
            && (r.1.Fail? <==> texture.None? || !s.beginCalled)
            && (r.1.Fail? ==> r.0 == s)
            && (r.1.Pass? ==>
                  && r.0.items[..|s.items|] == s.items && |r.0.items| == |s.items| + 1
                  && r.0.drawn == s.drawn + (if s.sortMode == Immediate then [DrawCall(Immediate, |s.items| + 1)] else []))
    ensures var r := DrawPlainSpriteStep(s, texture);
            && (r.1.Fail? <==> texture.None? || !s.beginCalled)
            && (r.1.Fail? ==> r.0 == s)
            && (r.1.Pass? ==>
                  && r.0.items == s.items + [BatchItem(texture, Some(PlainKey(s.sortMode, texture.value)), Sprite(0.0))]
                  && r.0.drawn == s.drawn + (if s.sortMode == Immediate then [DrawCall(Immediate, |s.items| + 1)] else []))
  {
    var r := DrawSpriteStep(s, texture, layerDepth);
    if r.1.Pass? {
      var item := BatchItem(texture, SwitchKey(s.sortMode, texture.value, layerDepth), Sprite(layerDepth));
      assert r.0.items == s.items + [item];
      assert (s.items + [item])[..|s.items|] == s.items;
    }
  }

  /** The vertex overloads add their item even with no session open and a missing texture, and never draw. */
  lemma VertexDrawSkipsChecks(s: BatchState, texture: Option<Texture2D>)
    ensures var t := DrawVerticesStep(s, texture);
            && |t.items| == |s.items| + 1 && t.items[..|s.items|] == s.items
            && t.drawn == s.drawn && t.beginCalled == s.beginCalled
  {
    var t := DrawVerticesStep(s, texture);
    assert t.items[..|s.items|] == s.items;
  }

  // ---------------------------------------------------------------- text layout

  /** The DrawString pen: `offset` and `firstGlyphOfLine`. */
  datatype DrawPen = DrawPen(x: real, y: real, firstGlyphOfLine: bool)

  /**
   * What every glyph item of one DrawString call shares: the font texture,
   * the key, the depth, the position added to each point, and the flips
   * that shift each point.
   */
  datatype TextStamp = TextStamp(texture: Texture2D, sortKey: real, depth: real, position: Vec2, flipH: bool, flipV: bool)

  /** The walk so far: the pen, the items created, and whether a glyph lookup threw. */
  datatype Layout = Layout(pen: DrawPen, placed: seq<BatchItem>, stopped: bool)

  const StartLayout := Layout(DrawPen(0.0, 0.0, true), [], false)

  /** The item for glyph `g` whose pen stands at (x, y). */
  function GlyphItem(v: FontView, st: TextStamp, g: Glyph, x: real, y: real): BatchItem {
    var px := x + (if st.flipH then g.boundsInTexture.width as real else 0.0) + g.cropping.x as real + st.position.x;
    var py := y + (if st.flipV then (g.boundsInTexture.height - v.lineSpacing) as real else 0.0)
              + g.cropping.y as real + st.position.y;
    BatchItem(Some(st.texture), Some(st.sortKey), GlyphQuad(px, py, g.boundsInTexture, st.depth))
  }

  /** Where a glyph's pen x stands before it is drawn: max(LSB, 0) on a fresh line, else after Spacing + LSB. */
  function GlyphStartX(v: FontView, pen: DrawPen, g: Glyph): real {
    if pen.firstGlyphOfLine then Max(g.leftSideBearing, 0.0) else pen.x + v.spacing + g.leftSideBearing
  }

  /** One character of the DrawString loop. */
  function LayoutStep(v: FontView, st: TextStamp, l: Layout, c: WChar): Layout
    requires ViewOk(v)
  {
    if l.stopped || c == CR then l
    else if c == LF then l.(pen := DrawPen(0.0, l.pen.y + v.lineSpacing as real, true))
    else if !Resolves(v, c) then l.(stopped := true)
    else
      var g := GlyphFor(v, c);
      var x := GlyphStartX(v, l.pen, g);
      Layout(DrawPen(x + g.width + g.rightSideBearing, l.pen.y, false), l.placed + [GlyphItem(v, st, g, x, l.pen.y)], false)
  }

  function LayoutWalk(v: FontView, st: TextStamp, l: Layout, s: seq<WChar>): Layout
    requires ViewOk(v)
    decreases |s|
  {
    if s == [] then l else LayoutStep(v, st, LayoutWalk(v, st, l, s[..|s| - 1]), s[|s| - 1])
  }

  /** How many characters of `s` are neither CR nor LF. */
  function GlyphCount(s: seq<WChar>): nat
    decreases |s|
  {
    if s == [] then 0 else GlyphCount(s[..|s| - 1]) + (if s[|s| - 1] == CR || s[|s| - 1] == LF then 0 else 1)
  }

  lemma {:induction false} LayoutAppend(v: FontView, st: TextStamp, l: Layout, a: seq<WChar>, b: seq<WChar>)
    requires ViewOk(v)
    ensures LayoutWalk(v, st, l, a + b) == LayoutWalk(v, st, LayoutWalk(v, st, l, a), b)
  {
    if b == [] {
      assert a + b == a;
    } else {
      var b' := b[..|b| - 1];
      LayoutAppend(v, st, l, a, b');
      assert (a + b)[..|a + b| - 1] == a + b';
    }
  }

  /** Once a lookup has thrown, nothing more happens. */
  lemma {:induction false} StoppedLayoutStays(v: FontView, st: TextStamp, l: Layout, s: seq<WChar>)
    requires ViewOk(v) && l.stopped
    ensures LayoutWalk(v, st, l, s) == l
  {
    if s != [] {
      StoppedLayoutStays(v, st, l, s[..|s| - 1]);
    }
  }

  lemma LayoutExtend(v: FontView, st: TextStamp, l: Layout, s: seq<WChar>, i: nat)
    requires ViewOk(v) && i < |s|
    ensures LayoutWalk(v, st, l, s[..i + 1]) == LayoutStep(v, st, LayoutWalk(v, st, l, s[..i]), s[i])
  {
    assert s[..i + 1][..i] == s[..i];
  }

  /** A walk that stops at character `i` ends there. */
  lemma {:induction false} LayoutStopsAt(v: FontView, st: TextStamp, l: Layout, s: seq<WChar>, i: nat)
    requires ViewOk(v) && i < |s| && LayoutWalk(v, st, l, s[..i + 1]).stopped
    ensures LayoutWalk(v, st, l, s) == LayoutWalk(v, st, l, s[..i + 1])
    decreases |s|
  {
    if |s| == i + 1 {
      assert s[..i + 1] == s;
    } else {
      var front := s[..|s| - 1];
      assert front[..i + 1] == s[..i + 1];
      LayoutStopsAt(v, st, l, front, i);
    }
  }

  /**
   * The walk stops exactly when some character other than CR and LF has no
   * glyph; otherwise it creates one item per such character.
   */
  lemma {:induction false} LayoutCountsGlyphs(v: FontView, st: TextStamp, l: Layout, s: seq<WChar>)
    requires ViewOk(v) && !l.stopped
    ensures LayoutWalk(v, st, l, s).stopped <==> !AllResolve(v, s)
    ensures !LayoutWalk(v, st, l, s).stopped ==>
      |LayoutWalk(v, st, l, s).placed| == |l.placed| + GlyphCount(s)
  {
    if s != [] {
      LayoutCountsGlyphs(v, st, l, s[..|s| - 1]);
      var w := LayoutWalk(v, st, l, s[..|s| - 1]);
      if w.stopped {
        StoppedLayoutStays(v, st, w, [s[|s| - 1]]);
      }
    }
  }

  /** The walk from any layout: the items it adds do not depend on the items already there. */
  lemma {:induction false} LayoutWalkFrom(v: FontView, st: TextStamp, l: Layout, s: seq<WChar>)
    requires ViewOk(v)
    ensures var w := LayoutWalk(v, st, Layout(l.pen, [], l.stopped), s);
            LayoutWalk(v, st, l, s) == Layout(w.pen, l.placed + w.placed, w.stopped)
  {
    if s != [] {
      LayoutWalkFrom(v, st, l, s[..|s| - 1]);
      var w := LayoutWalk(v, st, Layout(l.pen, [], l.stopped), s[..|s| - 1]);
      var c := s[|s| - 1];
      if !w.stopped && c != CR && c != LF && Resolves(v, c) {
        var g := GlyphFor(v, c);
        var item := GlyphItem(v, st, g, GlyphStartX(v, w.pen, g), w.pen.y);
        assert l.placed + w.placed + [item] == l.placed + (w.placed + [item]);
      }
    }
  }

  /** CR is skipped wherever it stands. */
  lemma LayoutIgnoresCarriageReturn(v: FontView, st: TextStamp, l: Layout, a: seq<WChar>, b: seq<WChar>)
    requires ViewOk(v)
    ensures LayoutWalk(v, st, l, a + [CR] + b) == LayoutWalk(v, st, l, a + b)
  {
    LayoutAppend(v, st, l, a + [CR], b);
    LayoutAppend(v, st, l, a, [CR]);
    LayoutAppend(v, st, l, a, b);
    assert [CR][..0] == [];
  }

  /**
   * After a LF the pen forgets the line before it: what follows the LF is
   * laid out from a fresh pen at the next line's height, whatever the pen's
   * x and first-glyph flag were.
   */
  lemma LineBreakResetsPen(v: FontView, st: TextStamp, l: Layout, b: seq<WChar>)
    requires ViewOk(v) && !l.stopped
    ensures var w := LayoutWalk(v, st, Layout(DrawPen(0.0, l.pen.y + v.lineSpacing as real, true), [], false), b);
            LayoutWalk(v, st, l, [LF] + b) == Layout(w.pen, l.placed + w.placed, w.stopped)
  {
    assert [LF][..0] == [];
    LayoutAppend(v, st, l, [LF], b);
    LayoutWalkFrom(v, st, LayoutWalk(v, st, l, [LF]), b);
  }

  /** The first glyph of a line starts at max(LSB, 0), then its cropping offset and the position. */
  lemma FirstGlyphOfLineAtBearing(v: FontView, l: Layout, position: Vec2, texture: Texture2D, key: real, c: WChar)
    requires ViewOk(v) && !l.stopped && c != CR && c != LF && Resolves(v, c)
    ensures var st := TextStamp(texture, key, 0.0, position, false, false);
            var w := LayoutWalk(v, st, l, [LF, c]);
            var g := GlyphFor(v, c);
            && |w.placed| == |l.placed| + 1
            && w.placed[|l.placed|].shape
               == GlyphQuad(Max(g.leftSideBearing, 0.0) + g.cropping.x as real + position.x,
                            l.pen.y + v.lineSpacing as real + g.cropping.y as real + position.y,
                            g.boundsInTexture, 0.0)
  {
    var st := TextStamp(texture, key, 0.0, position, false, false);
    assert [LF, c][..1] == [LF];
    assert [LF][..0] == [];
    var a := LayoutWalk(v, st, l, [LF]);
    assert LayoutWalk(v, st, l, []) == l;
    assert a == LayoutStep(v, st, l, LF);
    assert a == l.(pen := DrawPen(0.0, l.pen.y + v.lineSpacing as real, true));
    var g := GlyphFor(v, c);
    var x := Max(g.leftSideBearing, 0.0);
    assert GlyphStartX(v, a.pen, g) == x;
    assert LayoutWalk(v, st, l, [LF, c]) == LayoutStep(v, st, a, c);
    assert LayoutStep(v, st, a, c).placed == l.placed + [GlyphItem(v, st, g, x, a.pen.y)];
  }

  /** The key and depth of the plain DrawString overloads. */
  function PlainStamp(mode: SortMode, v: FontView, position: Vec2): TextStamp {
    TextStamp(v.texture, PlainKey(mode, v.texture), 0.0, position, false, false)
  }

  /** The transformed overloads: the point is taken before the transform, which is not modelled. */
  function TransformedStamp(mode: SortMode, v: FontView, layerDepth: real, flipH: bool, flipV: bool): TextStamp {
    TextStamp(v.texture, TextKey(mode, v.texture, layerDepth), layerDepth, Vec2(0.0, 0.0), flipH, flipV)
  }

  /**
   * A DrawString call after its checks: the walk's items are added; a
   * lookup that throws leaves the items created before it and skips the flush.
   */
  function PlaceText(s: BatchState, v: FontView, text: seq<WChar>, st: TextStamp): (BatchState, Outcome<Exception>)
    requires ViewOk(v)
  {
    var l := LayoutWalk(v, st, StartLayout, text);
    var t := s.(items := s.items + l.placed);
    if l.stopped then (t, Fail(ArgumentException)) else (Flush(t), Pass)
  }

  /** DrawString(font, text, position, color), for string and StringBuilder text. */
  function DrawStringStep(s: BatchState, font: Option<FontView>, text: Option<seq<WChar>>, position: Vec2): (BatchState, Outcome<Exception>)
    requires font.Some? ==> ViewOk(font.value)
  {
    var o := CheckText(s, font.Some?, text.Some?);
    if o.Fail? then (s, o) else PlaceText(s, font.value, text.value, PlainStamp(s.sortMode, font.value, position))
  }

  /**
   * DrawString with rotation, origin, scale, effects and depth, for string
   * and StringBuilder text. Flipped text is measured whole first, and that
   * measuring pass throws on a character without a glyph before any item
   * exists.
   */
  function DrawStringTransformedStep(s: BatchState, font: Option<FontView>, text: Option<seq<WChar>>,
                                     layerDepth: real, flipH: bool, flipV: bool): (BatchState, Outcome<Exception>)
    requires font.Some? ==> ViewOk(font.value)
  {
    var o := CheckText(s, font.Some?, text.Some?);
    if o.Fail? then (s, o)
    else if (flipH || flipV) && !AllResolve(font.value, text.value) then (s, Fail(ArgumentException))
    else PlaceText(s, font.value, text.value, TransformedStamp(s.sortMode, font.value, layerDepth, flipH, flipV))
  }

  /**
   * The transformed DrawString: its checks as the plain overload's; a text
   * whose every character resolves adds one item per character other than
   * CR and LF; otherwise ArgumentException, which for flipped text leaves
   * the batch exactly as it was, and for unflipped text keeps the items
   * created before the failing lookup.
   */
  lemma DrawStringTransformedOutcome(s: BatchState, font: Option<FontView>, text: Option<seq<WChar>>,
                                     layerDepth: real, flipH: bool, flipV: bool)
    requires font.Some? ==> ViewOk(font.value)
    ensures var r := DrawStringTransformedStep(s, font, text, layerDepth, flipH, flipV);
            && (CheckText(s, font.Some?, text.Some?).Fail? ==> r == (s, CheckText(s, font.Some?, text.Some?)))
            && (CheckText(s, font.Some?, text.Some?).Pass? ==>
                  && (r.1.Pass? <==> AllResolve(font.value, text.value))
                  && (r.1.Fail? ==> r.1 == Fail(ArgumentException) && r.0.drawn == s.drawn)
                  && (r.1.Fail? && (flipH || flipV) ==> r.0 == s)
                  && (r.1.Pass? ==>
                        && |r.0.items| == |s.items| + GlyphCount(text.value)
                        && r.0.drawn == s.drawn + (if s.sortMode == Immediate then [DrawCall(Immediate, |r.0.items|)] else [])))
  {
    if CheckText(s, font.Some?, text.Some?).Pass? {
      LayoutCountsGlyphs(font.value, TransformedStamp(s.sortMode, font.value, layerDepth, flipH, flipV),
                         StartLayout, text.value);
    }
  }

  /**
   * DrawString: the checks throw before any item exists; a text whose every
   * character resolves adds one item per character other than CR and LF and
   * draws once in Immediate mode; otherwise ArgumentException.
   */
  lemma DrawStringOutcome(s: BatchState, font: Option<FontView>, text: Option<seq<WChar>>, position: Vec2)
    requires font.Some? ==> ViewOk(font.value)
    ensures var r := DrawStringStep(s, font, text, position);
            && (CheckText(s, font.Some?, text.Some?).Fail? ==> r == (s, CheckText(s, font.Some?, text.Some?)))
            && (CheckText(s, font.Some?, text.Some?).Pass? ==>
                  && (r.1.Pass? <==> AllResolve(font.value, text.value))
                  && (r.1.Fail? ==> r.1 == Fail(ArgumentException) && r.0.drawn == s.drawn)
                  && (r.1.Pass? ==>
                        && |r.0.items| == |s.items| + GlyphCount(text.value)
                        && r.0.drawn == s.drawn + (if s.sortMode == Immediate then [DrawCall(Immediate, |r.0.items|)] else [])))
  {
    if CheckText(s, font.Some?, text.Some?).Pass? {
      LayoutCountsGlyphs(font.value, PlainStamp(s.sortMode, font.value, position), StartLayout, text.value);
    }
  }

  // ---------------------------------------------------------------- glyph indices

  /** PrepareDrawString's entry for one character: -2 for CR, -1 for LF, else the glyph index. */
  function PreparedIndex(v: FontView, c: WChar): Result<int, Exception>
    requires ViewOk(v)
  {
    if c == CR then Success(-2)
    else if c == LF then Success(-1)
    else
      match GlyphIndexOrDefault(v, c)
      case Success(i) => Success(i as int)
      case Failure(e) => Failure(e)
  }

  function PreparedIndices(v: FontView, text: seq<WChar>): Result<seq<int>, Exception>
    requires ViewOk(v)
    decreases |text|
  {
    if text == [] then Success([])
    else
      match PreparedIndices(v, text[..|text| - 1])
      case Failure(e) => Failure(e)
      case Success(ks) =>
        match PreparedIndex(v, text[|text| - 1])
        case Failure(e) => Failure(e)
        case Success(k) => Success(ks + [k])
  }

  /**
   * The indices succeed exactly when every character other than CR and LF
   * resolves; then there is one entry per character, -2 and -1 mark CR and LF,
   * and every other entry is the index of the glyph the character is drawn with.
   */
  lemma {:induction false} PreparedIndicesDecode(v: FontView, text: seq<WChar>)
    requires ViewOk(v)
    ensures PreparedIndices(v, text).Success? <==> AllResolve(v, text)
    ensures PreparedIndices(v, text).Failure? ==> PreparedIndices(v, text).error == ArgumentException
    ensures PreparedIndices(v, text).Success? ==>
      var ks := PreparedIndices(v, text).value;
      && |ks| == |text|
      && forall i :: 0 <= i < |text| ==>
           && (ks[i] == -2 <==> text[i] == CR)
           && (ks[i] == -1 <==> text[i] == LF)
           && (ks[i] >= 0 ==> ks[i] < |v.glyphs| && Resolves(v, text[i]) && v.glyphs[ks[i]] == GlyphFor(v, text[i]))
           && -2 <= ks[i]
  {
    if text != [] {
      var front := text[..|text| - 1];
      PreparedIndicesDecode(v, front);
      var r := PreparedIndices(v, front);
      if r.Success? && PreparedIndex(v, text[|text| - 1]).Success? {
        var ks := r.value + [PreparedIndex(v, text[|text| - 1]).value];
        forall i | 0 <= i < |text|
          ensures && (ks[i] == -2 <==> text[i] == CR)
                  && (ks[i] == -1 <==> text[i] == LF)
                  && (ks[i] >= 0 ==> ks[i] < |v.glyphs| && Resolves(v, text[i]) && v.glyphs[ks[i]] == GlyphFor(v, text[i]))
                  && -2 <= ks[i]
        {
          if i < |front| {
            assert ks[i] == r.value[i] && text[i] == front[i];
          }
        }
      }
    }
  }

  /** The DrawString(font, glyphsIndices, ...) pen: `offset`, and whether the loop is at entry 0. */
  datatype CellLayout = CellLayout(x: real, y: real, atStart: bool, placed: seq<BatchItem>)

  predicate IndicesFit(v: FontView, ks: seq<int>) {
    forall i :: 0 <= i < |ks| ==> -2 <= ks[i] < |v.glyphs|
  }

  /**
   * One entry of the index-based DrawString: -2 is skipped, -1 starts a new
   * line, a glyph index places a cell scaled by the font scale. The spacing
   * before a glyph is decided by the entry's position (`i != 0`), not by
   * whether it starts a line.
   */
  function CellStep(v: FontView, origin: Vec2, lineHeight: real, l: CellLayout, k: int): CellLayout
    requires -2 <= k < |v.glyphs|
  {
    if k == -2 then l.(atStart := false)
    else if k == -1 then l.(x := 0.0, y := l.y + v.lineSpacing as real, atStart := false)
    else
      var g := v.glyphs[k];
      var sc := v.scale;
      var x := if l.atStart then v.spacing * sc else l.x + (v.spacing + g.leftSideBearing) * sc;
      var height := g.cropping.height as real * sc;
      var width := g.cropping.width as real * sc;
      var px := x + g.cropping.x as real * sc - origin.x;
      var py := -l.y - height + lineHeight - g.cropping.y as real * sc - origin.y;
      CellLayout(x + width + g.rightSideBearing * sc, l.y, false,
                 l.placed + [BatchItem(Some(v.texture), None, GlyphCell(px, py, width, height))])
  }

  function CellWalk(v: FontView, origin: Vec2, lineHeight: real, l: CellLayout, ks: seq<int>): CellLayout
    requires IndicesFit(v, ks)
    decreases |ks|
  {
    if ks == [] then l
    else CellStep(v, origin, lineHeight, CellWalk(v, origin, lineHeight, l, ks[..|ks| - 1]), ks[|ks| - 1])
  }

  /** How many entries are glyph indices. */
  function CellCount(ks: seq<int>): nat
    decreases |ks|
  {
    if ks == [] then 0 else CellCount(ks[..|ks| - 1]) + (if ks[|ks| - 1] >= 0 then 1 else 0)
  }

  /** The index-based DrawString: no checks at all, one item per glyph entry, then the flush. */
  function DrawIndexedStep(s: BatchState, v: FontView, ks: seq<int>, origin: Vec2, lineHeight: real): BatchState
    requires IndicesFit(v, ks)
  {
    if ks == [] then s
    else
      var l := CellWalk(v, origin, lineHeight, CellLayout(0.0, 0.0, true, []), ks);
      Flush(s.(items := s.items + l.placed))
  }

  lemma {:induction false} CellWalkCounts(v: FontView, origin: Vec2, lineHeight: real, l: CellLayout, ks: seq<int>)
    requires IndicesFit(v, ks)
    ensures |CellWalk(v, origin, lineHeight, l, ks).placed| == |l.placed| + CellCount(ks)
    ensures CellWalk(v, origin, lineHeight, l, ks).placed[..|l.placed|] == l.placed
  {
    if ks != [] {
      var front := ks[..|ks| - 1];
      assert IndicesFit(v, front) by {
        forall i | 0 <= i < |front| ensures -2 <= front[i] < |v.glyphs| {
          assert front[i] == ks[i];
        }
      }
      CellWalkCounts(v, origin, lineHeight, l, front);
      var w := CellWalk(v, origin, lineHeight, l, front);
      var w' := CellStep(v, origin, lineHeight, w, ks[|ks| - 1]);
      assert w'.placed[..|w.placed|] == w.placed;
      assert w'.placed[..|l.placed|] == w'.placed[..|w.placed|][..|l.placed|];
    }
  }

  /** The prepared indices of a text give one cell per character other than CR and LF. */
  lemma {:induction false} PreparedCellCount(v: FontView, text: seq<WChar>)
    requires ViewOk(v) && PreparedIndices(v, text).Success?
    ensures CellCount(PreparedIndices(v, text).value) == GlyphCount(text)
  {
    if text != [] {
      var front := text[..|text| - 1];
      PreparedCellCount(v, front);
      var ks := PreparedIndices(v, text).value;
      assert ks[..|ks| - 1] == PreparedIndices(v, front).value;
      PreparedIndicesDecode(v, text);
      assert ks[|ks| - 1] == PreparedIndex(v, text[|text| - 1]).value;
    }
  }

  /**
   * The first line's first glyph sits at Spacing·Scale, but a glyph opening
   * a later line adds its left side bearing: (Spacing + LSB)·Scale.
   */
  lemma IndexedLineStartsDiffer(v: FontView, origin: Vec2, lineHeight: real, k: int)
    requires 0 <= k < |v.glyphs|
    ensures var g := v.glyphs[k];
            var sc := v.scale;
            var start := CellLayout(0.0, 0.0, true, []);
            && IndicesFit(v, [k]) && IndicesFit(v, [k, -1, k])
            && var first := CellWalk(v, origin, lineHeight, start, [k]).placed;
            && var second := CellWalk(v, origin, lineHeight, start, [k, -1, k]).placed;
            && |first| == 1 && first[0].shape.GlyphCell?
            && first[0].shape.x == v.spacing * sc + g.cropping.x as real * sc - origin.x
            && |second| == 2 && second[1].shape.GlyphCell?
            && second[1].shape.x == (v.spacing + g.leftSideBearing) * sc + g.cropping.x as real * sc - origin.x
  {
    var start := CellLayout(0.0, 0.0, true, []);
    assert [k, -1, k][..2] == [k, -1];
    assert [k, -1][..1] == [k];
    assert [k][..0] == [];
  }

  // ---------------------------------------------------------------- the batch object

  class SpriteBatch {
    var beginCalled: bool
    var sortMode: SortMode
    var items: seq<BatchItem>
    var drawn: seq<DrawCall>

    function State(): BatchState
      reads this
    {
      BatchState(beginCalled, sortMode, items, drawn)
    }

    /** A new batch: no session open, Deferred mode, nothing batched or drawn. */
    constructor()
      ensures State() == BatchState(false, Deferred, [], [])
    {
      beginCalled := false;
      sortMode := Deferred;
      items := [];
      drawn := [];
    }

    method Begin(mode: SortMode) returns (o: Outcome<Exception>)
      modifies this
      ensures (State(), o) == BeginStep(old(State()), mode)
    {
      if beginCalled {
        return Fail(InvalidOperationException);
      }
      sortMode := mode;
      beginCalled := true;
      return Pass;
    }

    method End() returns (o: Outcome<Exception>)
      modifies this
      ensures (State(), o) == EndStep(old(State()))
    {
      if !beginCalled {
        return Fail(InvalidOperationException);
      }
      beginCalled := false;
      drawn := drawn + [DrawCall(sortMode, |items|)];
      return Pass;
    }

    method FlushIfNeeded()
      modifies this
      ensures State() == Flush(old(State()))
    {
      if sortMode == Immediate {
        drawn := drawn + [DrawCall(sortMode, |items|)];
      }
    }

    /** The full Draw overloads. */
    method Draw(texture: Option<Texture2D>, layerDepth: real) returns (o: Outcome<Exception>)
      modifies this
      ensures (State(), o) == DrawSpriteStep(old(State()), texture, layerDepth)
    {
      o := CheckTexture(State(), texture);
      if o.Fail? {
        return;
      }
      var key: Option<real> := None;
      match sortMode {
        case Texture => key := Some(texture.value.sortingKey as real);
        case FrontToBack => key := Some(layerDepth);
        case BackToFront => key := Some(-layerDepth);
        case _ =>
      }
      items := items + [BatchItem(texture, key, Sprite(layerDepth))];
      FlushIfNeeded();
    }

    /** The short Draw overloads. */
    method DrawPlain(texture: Option<Texture2D>) returns (o: Outcome<Exception>)
      modifies this
      ensures (State(), o) == DrawPlainSpriteStep(old(State()), texture)
    {
      o := CheckTexture(State(), texture);
      if o.Fail? {
        return;
      }
      var key := if sortMode == Texture then texture.value.sortingKey as real else 0.0;
      items := items + [BatchItem(texture, Some(key), Sprite(0.0))];
      FlushIfNeeded();
    }

    /** The Draw overloads taking vertices. */
    method DrawVertices(texture: Option<Texture2D>)
      modifies this
      ensures State() == DrawVerticesStep(old(State()), texture)
    {
      items := items + [BatchItem(texture, None, Vertices)];
    }

    /** One character of the DrawString loop: the pen moves and at most one item is made. */
    static method LayOutChar(font: SpriteFont, st: TextStamp, l: Layout, c: WChar) returns (r: Layout)
      requires font.Valid() && !l.stopped
      ensures r == LayoutStep(font.View(), st, l, c)
    {
      if c == CR {
        return l;
      } else if c == LF {
        return l.(pen := DrawPen(0.0, l.pen.y + font.lineSpacing as real, true));
      }
      var idx := font.GetGlyphIndexOrDefault(c);
      if idx.Failure? {
        return l.(stopped := true);
      }
      var g := font.glyphs[idx.value];
      var x := if l.pen.firstGlyphOfLine then Max(g.leftSideBearing, 0.0) else l.pen.x + font.spacing + g.leftSideBearing;
      return Layout(DrawPen(x + g.width + g.rightSideBearing, l.pen.y, false), l.placed + [GlyphItem(font.View(), st, g, x, l.pen.y)], false);
    }

    /** The loop shared by the DrawString overloads: one item per glyph, stopping where a lookup throws. */
    method LayOut(font: SpriteFont, text: seq<WChar>, st: TextStamp) returns (stopped: bool)
      requires font.Valid()
      modifies this
      ensures beginCalled == old(beginCalled) && sortMode == old(sortMode) && drawn == old(drawn)
      ensures var l := LayoutWalk(font.View(), st, StartLayout, text);
              items == old(items) + l.placed && stopped == l.stopped
    {
      ghost var v := font.View();
      var l := StartLayout;
      var i := 0;
      while i < |text|
        invariant 0 <= i <= |text|
        invariant beginCalled == old(beginCalled) && sortMode == old(sortMode) && drawn == old(drawn)
        invariant LayoutWalk(v, st, StartLayout, text[..i]) == l && !l.stopped
        invariant items == old(items) + l.placed
      {
        LayoutExtend(v, st, StartLayout, text, i);
        var before := |l.placed|;
        l := LayOutChar(font, st, l, text[i]);
        if l.stopped {
          LayoutStopsAt(v, st, StartLayout, text, i);
          return true;
        }
        items := items + l.placed[before..];
        i := i + 1;
      }
      assert text[..i] == text;
      return false;
    }

    /** DrawString(font, text, position, color). */
    method DrawString(font: SpriteFont?, text: Option<seq<WChar>>, position: Vec2) returns (o: Outcome<Exception>)
      requires font != null ==> font.Valid()
      modifies this
      ensures (State(), o) == DrawStringStep(old(State()), if font == null then None else Some(font.View()), text, position)
    {
      o := CheckText(State(), font != null, text.Some?);
      if o.Fail? {
        return;
      }
      var key := if sortMode == Texture then font.texture.sortingKey as real else 0.0;
      var stopped := LayOut(font, text.value, TextStamp(font.texture, key, 0.0, position, false, false));
      if stopped {
        return Fail(ArgumentException);
      }
      FlushIfNeeded();
    }

    /** DrawString with rotation, origin, scale, effects and depth; only the flips reach the model. */
    method DrawStringTransformed(font: SpriteFont?, text: Option<seq<WChar>>, layerDepth: real, flipH: bool, flipV: bool)
      returns (o: Outcome<Exception>)
      requires font != null ==> font.Valid()
      modifies this
      ensures (State(), o) == DrawStringTransformedStep(old(State()), if font == null then None else Some(font.View()),
                                                          text, layerDepth, flipH, flipV)
    {
      o := CheckText(State(), font != null, text.Some?);
      if o.Fail? {
        return;
      }
      var key := 0.0;
      match sortMode {
        case Texture => key := font.texture.sortingKey as real;
        case FrontToBack => key := layerDepth;
        case BackToFront => key := -layerDepth;
        case _ =>
      }
      if flipH || flipV {
        var measured := MeasurePass(font, text.value);
        if !measured {
          return Fail(ArgumentException);
        }
      }
      var stopped := LayOut(font, text.value, TextStamp(font.texture, key, layerDepth, Vec2(0.0, 0.0), flipH, flipV));
      if stopped {
        return Fail(ArgumentException);
      }
      FlushIfNeeded();
    }

    /**
     * The measuring pass over flipped text: every character other than CR
     * and LF is looked up, and the first one without a glyph throws.
     */
    static method MeasurePass(font: SpriteFont, text: seq<WChar>) returns (ok: bool)
      requires font.Valid()
      ensures ok == AllResolve(font.View(), text)
    {
      ghost var v := font.View();
      var i := 0;
      while i < |text|
        invariant 0 <= i <= |text|
        invariant AllResolve(v, text[..i])
      {
        var c := text[i];
        assert text[..i + 1][..i] == text[..i];
        if c != CR && c != LF {
          var index := font.GetGlyphIndexOrDefault(c);
          if index.Failure? {
            AllResolveSplit(v, text[..i + 1], text[i + 1..]);
            assert text[..i + 1] + text[i + 1..] == text;
            return false;
          }
        }
        i := i + 1;
      }
      assert text[..i] == text;
      return true;
    }

    /** PrepareDrawString: a new array with one entry per character. */
    method PrepareDrawString(font: SpriteFont, text: seq<WChar>) returns (r: Result<array<int>, Exception>)
      requires font.Valid()
      ensures r.Failure? <==> PreparedIndices(font.View(), text).Failure?
      ensures r.Failure? ==> r.error == PreparedIndices(font.View(), text).error
      ensures r.Success? ==> fresh(r.value) && r.value[..] == PreparedIndices(font.View(), text).value
    {
      ghost var v := font.View();
      var count := |text|;
      var indices := new int[count];
      var i := 0;
      assert text[..0] == [];
      while i < count
        invariant 0 <= i <= count
        invariant PreparedIndices(v, text[..i]).Success?
        invariant indices[..i] == PreparedIndices(v, text[..i]).value
      {
        var c := text[i];
        assert text[..i + 1][..i] == text[..i];
        if c == CR {
          indices[i] := -2;
        } else if c == LF {
          indices[i] := -1;
        } else {
          var idx := font.GetGlyphIndexOrDefault(c);
          if idx.Failure? {
            PreparedFailsAt(v, text, i);
            return Failure(idx.error);
          }
          indices[i] := idx.value;
        }
        assert indices[..i + 1] == indices[..i] + [indices[i]];
        i := i + 1;
      }
      assert text[..i] == text;
      return Success(indices);
    }

    /** DrawString(font, glyphsIndices, origin, lineHeight, transform, colours). */
    method DrawIndexed(font: SpriteFont, glyphsIndices: seq<int>, origin: Vec2, lineHeight: real)
      requires IndicesFit(font.View(), glyphsIndices)
      modifies this
      ensures State() == DrawIndexedStep(old(State()), font.View(), glyphsIndices, origin, lineHeight)
    {
      var count := |glyphsIndices|;
      if count == 0 {
        return;
      }
      var v := font.View();
      var l := CellLayout(0.0, 0.0, true, []);
      var i := 0;
      while i < count
        invariant 0 <= i <= count
        invariant IndicesFit(v, glyphsIndices[..i])
        invariant l == CellWalk(v, origin, lineHeight, CellLayout(0.0, 0.0, true, []), glyphsIndices[..i])
        invariant items == old(items) + l.placed
        invariant beginCalled == old(beginCalled) && sortMode == old(sortMode) && drawn == old(drawn)
      {
        var k := glyphsIndices[i];
        assert glyphsIndices[..i + 1][..i] == glyphsIndices[..i];
        var before := |l.placed|;
        l := CellStep(v, origin, lineHeight, l, k);
        items := items + l.placed[before..];
        i := i + 1;
      }
      assert glyphsIndices[..i] == glyphsIndices;
      FlushIfNeeded();
    }
  }

  /** A character without a glyph makes the prepared indices fail. */
  lemma PreparedFailsAt(v: FontView, text: seq<WChar>, i: nat)
    requires ViewOk(v) && i < |text| && text[i] != CR && text[i] != LF && !Resolves(v, text[i])
    ensures PreparedIndices(v, text).Failure? && PreparedIndices(v, text).error == ArgumentException
  {
    PreparedIndicesDecode(v, text);
    if AllResolve(v, text) {
      AllResolveAt(v, text, i);
    }
  }
}
