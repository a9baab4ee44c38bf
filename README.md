# MonoGame font path and input cores, modelled in Dafny

This project models the font path of MonoGame, from import to runtime, together with several small integer-level cores of the Windows platform layer. Most Dafny modules correspond to one C# source file. Wrappers and Numerics hold the shared result types and integer helpers, and PixelPacking holds the pixel byte packing that both texture loaders and the image writer use.

- **SpriteFonts** (`sprite_font.dfy`) models the runtime glyph table of `SpriteFont`.
  - The constructor folds the ascending character list into `CharacterRegion`s and rejects an unordered list.
  - `TryGetGlyphIndex` searches those regions.
  - On top of it sit the `DefaultCharacter` fallback, `GetKerning`, and both `MeasureString` walks.
- **SpriteBatches** (`sprite_batch.dfy`) models the `SpriteBatch` session: `Begin` and `End`, the validity checks, and the sort key each mode picks.
  - It also covers the immediate-mode flush, the `DrawString` pen walk, `PrepareDrawString` and the index-based `DrawString`.
  - The `SpriteBatcher` is what can be observed of it: an append-only item list and the log of its `DrawBatch` calls.
- **FontImport** (`sharp_font_importer.dfy`) models `SharpFontImporter`.
  - Each character takes its glyph from the first face that maps it.
  - Each face keeps a glyph cache.
  - The importer expands 1-bit bitmaps to 8 bits, computes the placeholder size and vertical offsets, and builds the kerning table.
  - FreeType is represented by what the importer asks of a face: the glyph index of a character, the rendered slot of a glyph, and the kerning vector of a pair.
- **FontProcessing** (`font_description_processor.dfy`) models `FontDescriptionProcessor`.
  - `ImportFont` checks the file extensions, the glyph count and the default character, and sorts the glyphs.
  - `Process` assembles the four parallel output lists and rewrites the atlas alpha in place.
  - `FindFont` parses the output of `fc-match`.
- **FontReading** (`sprite_font_reader.dfy`) models `SpriteFontReader.Read` as a decoder over a stream of typed fields, for both the fresh branch and the reload branch.
- **KeyboardInput** (`keyboard_windows.dfy`) models the Windows keyboard poll.
  - It covers the defined key codes, the key list kept across polls, and `SetActive`.
- **WinFormsMessages** (`win_forms_game_form.dfy`) models the Win32 message decoding of `WinFormsGameForm`.
  - It covers pointer id and location, the keystroke flags, `KeyCodeTranslate` and the wheel delta.
  - It also models `WndProc` as a function from a message to the reaction it causes.
- **WinFormsWindow** (`win_forms_game_window.dfy`) models `WinFormsGameWindow` as a class.
  - It covers the touch edges of the left mouse button, the cursor-hide flags and the border setters.
  - It covers the full-screen transitions of `OnPresentationChanged`.
  - Native calls and raised events are recorded in an effect log.
- **RenderTargets** (`render_target_binding.dfy`) models every `RenderTargetBinding` constructor, including the DirectX-only ones.
- **PixelPacking** (`pixel_packing.dfy`), **TextureBigGustave**, **TextureSystemDrawing** and **ImageWriting** model the pixel round trips.
  - The loaders premultiply and pack pixels into texels.
  - The PNG writer unpacks them again.

Two support modules define shared types:
- `Wrappers` holds `Option`, `Result`, `Outcome` and the .NET exceptions.
- `Numerics` holds the UTF-16 code unit type `WChar`, the byte, 16-bit and 32-bit types, and truncating division.

Conventions:
- C# `float` values are modelled as `real`, so single-precision rounding is not modelled.
- C# integer widths are written out where the code relies on them: casts to `short`, `IntPtr.ToInt32`, and shifts.
- An exception is a `Failure` (or `Fail`) carrying the exception's type.

Two behaviours of the code that a reader might not expect:
- The reader reads the default-character flag (`SpriteFontReader.cs:75-78`) without checking the stream length. An asset that ends before that field therefore fails with `EndOfStreamException` (`FontReading.TruncatedAssetFails`).
- `MeasureString` sets the previous character (`SpriteFont.cs:265-268`) only inside the loop, after the first character has been handled. The first pair of a text is therefore never kerned (`SpriteFonts.FirstPairNeverKerned`).

## Model

| member | source | states |
|---|---|---|
| SpriteFonts.BuildGlyphs | MonoGame.Framework/Graphics/SpriteFont.cs:84-119 | one glyph per character, copied from the parallel lists at the same index; the region stack lists the runs of consecutive characters; a short list gives ArgumentOutOfRangeException and a character not above its predecessor InvalidOperationException, whichever index comes first; success exactly when the lists are long enough and the characters ascend |
| SpriteFonts.PushCharacter | MonoGame.Framework/Graphics/SpriteFont.cs:100-115 | the region-stack step opens a region or extends the top one exactly when the character is the first or above its predecessor, and otherwise throws InvalidOperationException; on success the stack still lists the runs of the characters so far, topped by the new character |
| SpriteFonts.RegionLengthsSumToCount | MonoGame.Framework/Graphics/SpriteFont.cs:100-119 | the regions the constructor builds cover exactly as many characters as the font has |
| SpriteFonts.AscendingIndexUnique | MonoGame.Framework/Graphics/SpriteFont.cs:346-385 | in the ascending character list a character has exactly one position, so the glyph index a lookup returns is unique |
| SpriteFonts.GlyphIndexOrDefault | MonoGame.Framework/Graphics/SpriteFont.cs:388-400 | a character in the font gets its own glyph; any other gets the cached default glyph, and ArgumentException when there is none |
| SpriteFonts.FirstProbeAsWritten | MonoGame.Framework/Graphics/SpriteFont.cs:350-354 | the first probe of the region search as written: NullReferenceException exactly when the font has no regions |
| SpriteFonts.ProbeOverrunsRegions | MonoGame.Framework/Graphics/SpriteFont.cs:354-358 | a valid font (characters NUL, 2, 3, 4) whose first probe for character 4 is region 2 of a 2-region array, past the end the debug assertion guards |
| SpriteFonts.ProbeDividesByZero | MonoGame.Framework/Graphics/SpriteFont.cs:354 | a valid font whose only region starts at NUL makes every lookup divide by zero |
| SpriteFonts.FirstProbe | MonoGame.Framework/Graphics/SpriteFont.cs:354-358 | the corrected first probe always lies inside the region array and agrees with the written one whenever that one does |
| SpriteFonts.SetDefaultAsWritten | MonoGame.Framework/Graphics/SpriteFont.cs:153-169 | the DefaultCharacter setter as written fails exactly when the new character is not in the font |
| SpriteFonts.FailedDefaultSetStrandsCharacter | MonoGame.Framework/Graphics/SpriteFont.cs:160-162 | a failed set leaves the old default character paired with glyph index -1, so the pair is no longer consistent |
| SpriteFonts.SetDefault | MonoGame.Framework/Graphics/SpriteFont.cs:153-169 | the corrected setter: clearing or naming a character in the font succeeds and caches that character's own glyph index; anything else throws ArgumentException and changes nothing |
| SpriteFonts.SetDefaultKeepsConsistency | MonoGame.Framework/Graphics/SpriteFont.cs:153-169 | the corrected setter keeps the default character and its cached index consistent whatever value is set |
| SpriteFonts.Truncate | MonoGame.Framework/Graphics/SpriteFont.cs:289-311 | the text measured is a non-empty prefix: all of it when maxLength is 0 or not below the length, maxLength characters when 0 < maxLength < length, and only the first character when maxLength < 0, since the loop from 1 then never runs |
| SpriteFonts.Widest | MonoGame.Framework/Graphics/SpriteFont.cs:318-340 | the widest line is at least 0, at least every line's width, and one of them unless it is 0 |
| SpriteFonts.TextExtentFailsAt | MonoGame.Framework/Graphics/SpriteFont.cs:301-330 | a measured character that is not CR or LF and has no glyph and no default makes the string overload throw ArgumentException; the first character is looked up even when it is CR or LF |
| SpriteFonts.BuilderExtentFailsAt | MonoGame.Framework/Graphics/SpriteFont.cs:237-262 | the same for the StringBuilder overload |
| SpriteFonts.TextSizeIsWidestLine | MonoGame.Framework/Graphics/SpriteFont.cs:304-342 | the string overload's width is the widest line of the measured text (never below 0) plus 4, against an independent definition of the lines |
| SpriteFonts.BuilderSizeIsLastLine | MonoGame.Framework/Graphics/SpriteFont.cs:239-272 | the StringBuilder overload's width is the last line's width only, plus Spacing when the text has a single line, plus 4 |
| SpriteFonts.LinesCountLineFeeds | MonoGame.Framework/Graphics/SpriteFont.cs:253-258 | every LF after the first character opens one more line |
| SpriteFonts.BuilderHeightCountsLineFeeds | MonoGame.Framework/Graphics/SpriteFont.cs:233-272 | the StringBuilder overload's height is (LineSpacing + 1) times one more than the number of LFs, the first character included, plus 4 |
| SpriteFonts.TextHeightCountsLineFeeds | MonoGame.Framework/Graphics/SpriteFont.cs:296-342 | the same for the string overload, counting only the measured prefix |
| SpriteFonts.TextSizeIgnoresCarriageReturn | MonoGame.Framework/Graphics/SpriteFont.cs:315-316 | inserting a CR after the first character does not change the string overload's result |
| SpriteFonts.BuilderSizeIgnoresCarriageReturn | MonoGame.Framework/Graphics/SpriteFont.cs:251-252 | inserting a CR after the first character does not change the StringBuilder overload's result |
| SpriteFonts.GetKerning | MonoGame.Framework/Graphics/SpriteFont.cs:409-423 | a lookup with default 0: the stored distance exactly when neither character is NUL and the table has a row for the left character holding the right one, else 0; a lookup with a default is its own specification, and FontReading.DecodedKerningIsLastWritten ties it to the decoded asset |
| SpriteFonts.FirstPairNeverKerned | MonoGame.Framework/Graphics/SpriteFont.cs:231-267 | the previous character starts as NUL and is set only inside the loop, so the second character is kerned against NUL, never against the first |
| SpriteFonts.SpriteFont.Init | MonoGame.Framework/Graphics/SpriteFont.cs:78-83 | the fields as the constructor sets them before the default character: the given texture, characters, glyphs, regions, kerning, spacing and scale, no default and index -1 |
| SpriteFonts.SpriteFont.Create | MonoGame.Framework/Graphics/SpriteFont.cs:67-124 | (corrected as in Findings) the public constructor succeeds exactly when the lists are long enough, the characters ascend and the default character is absent or in the font; otherwise the exception of the first failing step; a built font holds the given glyphs and settings |
| SpriteFonts.SpriteFont.SetDefaultCharacter | MonoGame.Framework/Graphics/SpriteFont.cs:153-169 | the setter (corrected as in Findings) changes the default slot as SetDefault says and keeps the font valid |
| SpriteFonts.SpriteFont.TryGetGlyphIndex | MonoGame.Framework/Graphics/SpriteFont.cs:346-386 | (corrected as in Findings) finds a character exactly when it is in the font, and then returns its position; otherwise false and -1, an empty font included |
| SpriteFonts.SpriteFont.GetGlyphIndexOrDefault | MonoGame.Framework/Graphics/SpriteFont.cs:388-400 | (corrected as in Findings) equals GlyphIndexOrDefault on the font's state |
| SpriteFonts.SpriteFont.MeasureStringBuilder | MonoGame.Framework/Graphics/SpriteFont.cs:221-274 | the loop computes BuilderSize: zero for empty text, otherwise the scaled extent of the walk |
| SpriteFonts.SpriteFont.BuilderIteration | MonoGame.Framework/Graphics/SpriteFont.cs:248-268 | one iteration fails exactly when a character other than CR and LF has no glyph and no default; otherwise it is one step of the walk |
| SpriteFonts.SpriteFont.StringIteration | MonoGame.Framework/Graphics/SpriteFont.cs:311-336 | the same for the string overload's iteration |
| SpriteFonts.SpriteFont.MeasureString | MonoGame.Framework/Graphics/SpriteFont.cs:281-344 | the loop computes TextSize over the first maxLength characters; preferredWidth is not read |
| SpriteBatches.BeginThenEnd | MonoGame.Framework/Graphics/SpriteBatch.cs:132-177 | Begin followed by End succeeds, closes the session, keeps the items and draws the batch exactly once with the mode Begin was given |
| SpriteBatches.BeginTwiceFails | MonoGame.Framework/Graphics/SpriteBatch.cs:142-143 | a second Begin without End throws InvalidOperationException and changes nothing |
| SpriteBatches.SessionAlternates | MonoGame.Framework/Graphics/SpriteBatch.cs:142-171 | Begin succeeds exactly when End would fail; each success flips the session flag and each failure changes nothing |
| SpriteBatches.SwitchKey | MonoGame.Framework/Graphics/SpriteBatch.cs:246-260 | the sort-key switch assigns a key exactly in Texture, FrontToBack and BackToFront modes |
| SpriteBatches.DepthKeysOrder | MonoGame.Framework/Graphics/SpriteBatch.cs:246-260 | FrontToBack keys rise with the layer depth, BackToFront keys fall with it, and Texture keys do not depend on it |
| SpriteBatches.CheckedDrawAddsOneItem | MonoGame.Framework/Graphics/SpriteBatch.cs:230-335 | a checked Draw throws (null texture, then no session) before creating anything, or adds exactly one item and draws the batch once in Immediate mode only |
| SpriteBatches.VertexDrawSkipsChecks | MonoGame.Framework/Graphics/SpriteBatch.cs:729-756 | the vertex overloads add their item with no session and no texture check, and never draw |
| SpriteBatches.LayoutCountsGlyphs | MonoGame.Framework/Graphics/SpriteBatch.cs:803-858 | the DrawString loop stops exactly when a character other than CR and LF has no glyph and no default; otherwise it adds one item per such character |
| SpriteBatches.LayoutStopsAt | MonoGame.Framework/Graphics/SpriteBatch.cs:818-819 | once a glyph lookup has thrown, the rest of the text adds nothing |
| SpriteBatches.LayoutIgnoresCarriageReturn | MonoGame.Framework/Graphics/SpriteBatch.cs:807-808 | a CR anywhere in the text changes nothing that DrawString does |
| SpriteBatches.LineBreakResetsPen | MonoGame.Framework/Graphics/SpriteBatch.cs:810-816 | after a LF the text that follows is laid out from a fresh pen one LineSpacing lower, whatever the pen was before |
| SpriteBatches.FirstGlyphOfLineAtBearing | MonoGame.Framework/Graphics/SpriteBatch.cs:824-836 | the first glyph of a line starts at max(left side bearing, 0) plus its cropping offset and the position, so it never hangs off the left |
| SpriteBatches.DrawStringOutcome | MonoGame.Framework/Graphics/SpriteBatch.cs:793-862 | DrawString's checks throw before any item exists; a text whose characters all resolve adds one item per character other than CR and LF and draws once in Immediate mode; otherwise ArgumentException, with no flush |
| SpriteBatches.DrawStringTransformedOutcome | MonoGame.Framework/Graphics/SpriteBatch.cs:896-1067 | the transformed DrawString's checks throw before any item exists; it succeeds exactly when every character other than CR and LF resolves, adding one item per such character and drawing once in Immediate mode; on ArgumentException, flipped text leaves the batch unchanged because it is measured first (lines 925-931), and unflipped text keeps the items made before the failing lookup |
| SpriteBatches.PreparedIndicesDecode | MonoGame.Framework/Graphics/SpriteBatch.cs:1078-1112 | the prepared indices succeed exactly when every character other than CR and LF resolves; then one entry per character, -2 exactly for CR, -1 exactly for LF, and otherwise the index of the glyph the character is drawn with |
| SpriteBatches.PreparedFailsAt | MonoGame.Framework/Graphics/SpriteBatch.cs:1108 | a character without a glyph or a default makes PrepareDrawString throw ArgumentException |
| SpriteBatches.CellWalkCounts | MonoGame.Framework/Graphics/SpriteBatch.cs:1139-1218 | the index-based DrawString adds one item per glyph entry and keeps the items already batched |
| SpriteBatches.PreparedCellCount | MonoGame.Framework/Graphics/SpriteBatch.cs:1078-1112 | drawing prepared indices gives one item per character other than CR and LF |
| SpriteBatches.IndexedLineStartsDiffer | MonoGame.Framework/Graphics/SpriteBatch.cs:1159-1166 | in the index-based DrawString the first glyph of the text sits at Spacing times Scale, but a glyph opening a later line also adds its left side bearing |
| SpriteBatches.SpriteBatch.constructor | MonoGame.Framework/Graphics/SpriteBatch.cs:49-64 | a new batch has no session open, Deferred mode and nothing batched or drawn |
| SpriteBatches.SpriteBatch.Begin | MonoGame.Framework/Graphics/SpriteBatch.cs:132-160 | the new state and outcome are those of BeginStep |
| SpriteBatches.SpriteBatch.End | MonoGame.Framework/Graphics/SpriteBatch.cs:166-177 | the new state and outcome are those of EndStep |
| SpriteBatches.SpriteBatch.FlushIfNeeded | MonoGame.Framework/Graphics/SpriteBatch.cs:464-470 | draws the batch once in Immediate mode and otherwise changes nothing |
| SpriteBatches.SpriteBatch.Draw | MonoGame.Framework/Graphics/SpriteBatch.cs:230-335 | the full Draw overloads change the state as DrawSpriteStep says |
| SpriteBatches.SpriteBatch.DrawPlain | MonoGame.Framework/Graphics/SpriteBatch.cs:479-524 | the short Draw overloads change the state as DrawPlainSpriteStep says |
| SpriteBatches.SpriteBatch.DrawVertices | MonoGame.Framework/Graphics/SpriteBatch.cs:729-756 | the vertex overloads change the state as DrawVerticesStep says |
| SpriteBatches.SpriteBatch.LayOutChar | MonoGame.Framework/Graphics/SpriteBatch.cs:805-857 | one iteration of the DrawString loop is one step of the layout walk |
| SpriteBatches.SpriteBatch.LayOut | MonoGame.Framework/Graphics/SpriteBatch.cs:803-858 | the DrawString loop appends exactly the walk's items and reports whether a lookup threw; the session, mode and draws are unchanged |
| SpriteBatches.SpriteBatch.DrawString | MonoGame.Framework/Graphics/SpriteBatch.cs:793-862 | changes the state as DrawStringStep says, for string and StringBuilder text |
| SpriteBatches.SpriteBatch.DrawStringTransformed | MonoGame.Framework/Graphics/SpriteBatch.cs:896-1067 | changes the state as DrawStringTransformedStep says: the checks, the sort key from the depth switch, the measuring pass over flipped text, then the glyph walk |
| SpriteBatches.SpriteBatch.MeasurePass | MonoGame.Framework/Graphics/SpriteBatch.cs:925-931 | the measuring pass over flipped text succeeds exactly when every character other than CR and LF has a glyph or a default |
| SpriteBatches.SpriteBatch.PrepareDrawString | MonoGame.Framework/Graphics/SpriteBatch.cs:1078-1112 | a new array equal to the prepared indices, or their failure |
| SpriteBatches.SpriteBatch.DrawIndexed | MonoGame.Framework/Graphics/SpriteBatch.cs:1124-1222 | changes the state as DrawIndexedStep says: no checks, one item per glyph entry, and for a non-empty array the flush |
| FontImport.ExpandedRowPixel | MonoGame.Framework.Content.Pipeline/Graphics/Font/SharpFontImporter.cs:206-218 | pixel x of an expanded row is 255 exactly when bit 7 - x mod 8 of byte x / 8 is set, else 0 |
| FontImport.ExpandedBitmapPixel | MonoGame.Framework.Content.Pipeline/Graphics/Font/SharpFontImporter.cs:199-219 | the 1-bpp expansion has width·rows bytes, and pixel (x, y) comes from bit 7 - x mod 8 of byte y·ceil(width/8) + x / 8 |
| FontImport.TakeBit | MonoGame.Framework.Content.Pipeline/Graphics/Font/SharpFontImporter.cs:269-276 | dividing what is left of the byte by 1 << i reads exactly bit i, and the subtraction leaves exactly the lower bits |
| FontImport.ExpandByteAndCopy | MonoGame.Framework.Content.Pipeline/Graphics/Font/SharpFontImporter.cs:264-278 | writes the top `length` bits of the byte, high bit first, as 255 or 0 from startIndex on, and changes nothing else in the destination |
| FontImport.ExpandRowInto | MonoGame.Framework.Content.Pipeline/Graphics/Font/SharpFontImporter.cs:206-218 | one row of the expansion loop appends the row's expansion and leaves the byte index on the row's last byte |
| FontImport.ExpandMonoBitmap | MonoGame.Framework.Content.Pipeline/Graphics/Font/SharpFontImporter.cs:202-219 | the whole expansion loop produces exactly the reference expansion of the bitmap, row after row |
| FontImport.PlaceholderSize | MonoGame.Framework.Content.Pipeline/Graphics/Font/SharpFontImporter.cs:226-235 | a glyph without pixels gets a placeholder of the advance, else the line height, across and the line height, else that width, down; it is non-empty exactly when one of them is at least a pixel |
| FontImport.AdjustY | MonoGame.Framework.Content.Pipeline/Graphics/Font/SharpFontImporter.cs:237-243 | a glyph from a face whose line height differs from the first face's moves by half the difference, rounded toward zero, and not at all when they differ by at most a pixel |
| FontImport.ImportedGlyphShape | MonoGame.Framework.Content.Pipeline/Graphics/Font/SharpFontImporter.cs:184-253 | a glyph keeps its size and gets width·rows alphas exactly when FreeType rendered pixels (the 8-bpp buffer copied as is); otherwise the placeholder; glyphs of the first face are not moved |
| FontImport.ImportGlyph | MonoGame.Framework.Content.Pipeline/Graphics/Font/SharpFontImporter.cs:184-253 | the glyph data equals ImportedGlyph: bitmap, offsets and advance from the rendered slot |
| FontImport.FirstFace | MonoGame.Framework.Content.Pipeline/Graphics/Font/SharpFontImporter.cs:50-57 | the face a character is taken from is the first face, in order, that maps it to a non-zero glyph index; none when no face does |
| FontImport.ImportCharacter | MonoGame.Framework.Content.Pipeline/Graphics/Font/SharpFontImporter.cs:50-69 | one character of Import's loop is one ImportStep: first face, cache lookup or render, append |
| FontImport.ImportStepKeeps | MonoGame.Framework.Content.Pipeline/Graphics/Font/SharpFontImporter.cs:48-70 | one character keeps every face cache consistent and keeps the glyph list equal to rendering each character afresh |
| FontImport.ImportWalkFresh | MonoGame.Framework.Content.Pipeline/Graphics/Font/SharpFontImporter.cs:48-71 | with its caches, Import gives the same glyphs as rendering every character afresh, and each cache holds one entry per glyph index first reached in that face |
| FontImport.FreshGlyphsMapped | MonoGame.Framework.Content.Pipeline/Graphics/Font/SharpFontImporter.cs:48-71 | the glyph list has one glyph per character some face maps, in input order, each from that character's first face; unmapped characters are dropped |
| FontImport.KerningDistance | MonoGame.Framework.Content.Pipeline/Graphics/Font/SharpFontImporter.cs:124-126 | the distance kept for a kerning delta is always a 16-bit value |
| FontImport.KerningDistanceSign | MonoGame.Framework.Content.Pipeline/Graphics/Font/SharpFontImporter.cs:124-128 | for deltas small enough not to wrap, every negative delta keeps a negative distance, and a positive delta keeps a distance only from 48 (three quarters of a pixel) on |
| FontImport.RightDistances | MonoGame.Framework.Content.Pipeline/Graphics/Font/SharpFontImporter.cs:118-132 | a row holds only allowed right-hand characters (letters, '.', ',' and '?') with non-zero 16-bit distances, each from some glyph of the face |
| FontImport.LeftKerning | MonoGame.Framework.Content.Pipeline/Graphics/Font/SharpFontImporter.cs:108-136 | the rows added for a face keep the table well formed: letters on the left and no empty rows |
| FontImport.Kerning | MonoGame.Framework.Content.Pipeline/Graphics/Font/SharpFontImporter.cs:99-140 | the kerning table built over all faces is well formed |
| FontImport.RightDistancePairs | MonoGame.Framework.Content.Pipeline/Graphics/Font/SharpFontImporter.cs:118-132 | the right-hand loop computes RightDistances over the face's glyphs |
| FontImport.FaceKerningPairs | MonoGame.Framework.Content.Pipeline/Graphics/Font/SharpFontImporter.cs:108-136 | the left-hand loop computes LeftKerning over the face's glyphs |
| FontImport.KerningPairs | MonoGame.Framework.Content.Pipeline/Graphics/Font/SharpFontImporter.cs:103-137 | the face loop computes Kerning |
| FontImport.SharpFontImporter.constructor | MonoGame.Framework.Content.Pipeline/Graphics/Font/SharpFontImporter.cs:20-26 | a new importer has no glyphs, line spacing 0, YOffsetMin 0 and no kerning table |
| FontImport.SharpFontImporter.Import | MonoGame.Framework.Content.Pipeline/Graphics/Font/SharpFontImporter.cs:30-93 | with no face, reading the first one throws IndexOutOfRangeException and nothing is set; otherwise LineSpacing and YOffsetMin come from the first face, the glyphs are the reference glyph list, and the kerning table is built exactly when kerning is asked for |
| FontImport.SharpFontImporter.ImportGlyphKerningPairs | MonoGame.Framework.Content.Pipeline/Graphics/Font/SharpFontImporter.cs:99-140 | sets the kerning table to Kerning over the faces and changes nothing else |
| FontProcessing.LastDot | MonoGame.Framework.Content.Pipeline/Processors/FontDescriptionProcessor.cs:259 | the position found for `Path.GetExtension` holds a dot; ExtensionShape states that no dot or separator follows it and that nothing is found only when no dot has a plain name after it |
| FontProcessing.ExtensionShape | MonoGame.Framework.Content.Pipeline/Processors/FontDescriptionProcessor.cs:259 | the extension taken from a font file name is empty or a dot plus at least one character ending the name, with no dot or separator after it; an empty one means no dot of the name is followed by a plain name |
| FontProcessing.CheckExtensions | MonoGame.Framework.Content.Pipeline/Processors/FontDescriptionProcessor.cs:257-269 | true exactly when every font file's lower-cased extension is .ttf, .ttc or .otf |
| FontProcessing.SortByCharacter | MonoGame.Framework.Content.Pipeline/Processors/FontDescriptionProcessor.cs:290 | the sorted glyphs are ordered by character and are a permutation of the imported ones |
| FontProcessing.SortDistinctAscends | MonoGame.Framework.Content.Pipeline/Processors/FontDescriptionProcessor.cs:290 | sorting glyphs with distinct characters gives strictly ascending characters |
| FontProcessing.CheckedGlyphs | MonoGame.Framework.Content.Pipeline/Processors/FontDescriptionProcessor.cs:283-310 | no glyph at all is an error; a default character missing from the glyphs is InvalidOperationException; otherwise the glyphs sorted by character, all of them, with the default character among them |
| FontProcessing.CheckGlyphs | MonoGame.Framework.Content.Pipeline/Processors/FontDescriptionProcessor.cs:283-310 | the count check, sort and default-character search compute CheckedGlyphs |
| FontProcessing.ImportFontOutcome | MonoGame.Framework.Content.Pipeline/Processors/FontDescriptionProcessor.cs:249-311 | ImportFont fails with PipelineException exactly when some font file has an unknown extension; a result holds the rendered glyphs, at least one, sorted and permuted, with the default character, and the first face's metrics |
| FontProcessing.ImportedCharactersAscend | MonoGame.Framework.Content.Pipeline/Processors/FontDescriptionProcessor.cs:249-311 | when the description lists each character once, the imported glyph list is strictly ascending, which the SpriteFont constructor requires |
| FontProcessing.ImportFont | MonoGame.Framework.Content.Pipeline/Processors/FontDescriptionProcessor.cs:249-311 | the extension loop, the import and the checks compute ImportFontResult |
| FontProcessing.RoundHalfEven | MonoGame.Framework.Content.Pipeline/Processors/FontDescriptionProcessor.cs:178 | Math.Round gives the nearest integer, and the even one for a half |
| FontProcessing.OutputScale | MonoGame.Framework.Content.Pipeline/Processors/FontDescriptionProcessor.cs:169-174 | the output scale is the reciprocal of a non-zero description scale, and 1 otherwise |
| FontProcessing.AlphaRewrittenPixel | MonoGame.Framework.Content.Pipeline/Processors/FontDescriptionProcessor.cs:202-241 | every byte of the rewritten atlas comes from its own pixel's red byte |
| FontProcessing.AlphaIsRed | MonoGame.Framework.Content.Pipeline/Processors/FontDescriptionProcessor.cs:202-241 | in both modes each pixel's alpha becomes the red value the glyph renderer wrote |
| FontProcessing.PremultipliedIsWhiteTimesAlpha | MonoGame.Framework.Content.Pipeline/Processors/FontDescriptionProcessor.cs:202-241 | the premultiplied atlas is the white one with each colour channel scaled by the pixel's alpha |
| FontProcessing.PremultiplyIdempotent | MonoGame.Framework.Content.Pipeline/Processors/FontDescriptionProcessor.cs:207-218 | rewriting an atlas that is already premultiplied changes nothing |
| FontProcessing.RewritePixel | MonoGame.Framework.Content.Pipeline/Processors/FontDescriptionProcessor.cs:207-238 | one pass writes the pixel's four bytes from its red byte and leaves the rest of the atlas alone |
| FontProcessing.RewriteAlpha | MonoGame.Framework.Content.Pipeline/Processors/FontDescriptionProcessor.cs:202-241 | the loop leaves the atlas equal to AlphaRewritten of what it was |
| FontProcessing.SpriteFontContent.constructor | MonoGame.Framework.Content.Pipeline/Processors/SpriteFontContent.cs:16-27 | a new content has empty lists, vertical spacing 0, an empty kerning table and the description's scale |
| FontProcessing.SpriteFontContent.AddGlyphs | MonoGame.Framework.Content.Pipeline/Processors/FontDescriptionProcessor.cs:182-198 | the glyph loop appends one entry per glyph, in order, to each of the four lists: character, subrect, cropping placed offsetY - yOffsetMin down, and offsets; the lists stay in step |
| FontProcessing.FontDescriptionProcessor.constructor | MonoGame.Framework.Content.Pipeline/Processors/FontDescriptionProcessor.cs:26-30 | PremultiplyAlpha defaults to true |
| FontProcessing.Fill | MonoGame.Framework.Content.Pipeline/Processors/FontDescriptionProcessor.cs:169-198 | the output gets the rounded line spacing plus spacing, the output scale, the imported kerning table and one entry per glyph in each of the four lists |
| FontProcessing.FontDescriptionProcessor.Process | MonoGame.Framework.Content.Pipeline/Processors/FontDescriptionProcessor.cs:132-247 | fails exactly when ImportFont does, with its error and an untouched atlas; otherwise the output holds the rounded line spacing plus spacing, the output scale, the kerning table and the glyph lists, and the atlas is rewritten for the alpha mode |
| FontProcessing.Trim | MonoGame.Framework.Content.Pipeline/Processors/FontDescriptionProcessor.cs:342 | the trimmed text is the slice between leading and trailing white space and neither starts nor ends with white space |
| FontProcessing.Split | MonoGame.Framework.Content.Pipeline/Processors/FontDescriptionProcessor.cs:344 | the fields contain no separator and join back to the text |
| FontProcessing.SplitJoin | MonoGame.Framework.Content.Pipeline/Processors/FontDescriptionProcessor.cs:344 | splitting a join of separator-free fields gives the fields back |
| FontProcessing.SplitWithoutSeparator | MonoGame.Framework.Content.Pipeline/Processors/FontDescriptionProcessor.cs:361-365 | a family field without a comma is a single family |
| FontProcessing.FcMatchFile | MonoGame.Framework.Content.Pipeline/Processors/FontDescriptionProcessor.cs:340-367 | a returned file is the text before the first colon of fc-match's trimmed output |
| FontProcessing.FcMatchFileFamilies | MonoGame.Framework.Content.Pipeline/Processors/FontDescriptionProcessor.cs:344-367 | the file is returned exactly when the family field, read as a comma-separated list, names the font ignoring case; the comma and no-comma branches agree |
| FontReading.ContentReader.constructor | MonoGame.Framework/Content/ContentReaders/SpriteFontReader.cs:19 | a reader starts at the first field of the asset stream |
| FontReading.ContentReader.HasMore | MonoGame.Framework/Content/ContentReaders/SpriteFontReader.cs:81 | the stream has more data exactly when fields remain after the position |
| FontReading.ContentReader.Read | MonoGame.Framework/Content/ContentReaders/SpriteFontReader.cs:47-52 | a typed read returns the field at the position and moves past it; at the end it is EndOfStreamException, for a field of another type InvalidCastException, and neither moves the position |
| FontReading.RowKeys | MonoGame.Framework/Content/ContentReaders/SpriteFontReader.cs:59-69 | a kerning row has an entry for a right character exactly when the right list holds it |
| FontReading.RowLookup | MonoGame.Framework/Content/ContentReaders/SpriteFontReader.cs:63-69 | a right character maps to the distance paired with its last occurrence |
| FontReading.KerningOfLookup | MonoGame.Framework/Content/ContentReaders/SpriteFontReader.cs:54-72 | the kerning table has a row for every left character read, and a left character's row is the one read last for it |
| FontReading.KerningFromFields | MonoGame.Framework/Content/ContentReaders/SpriteFontReader.cs:54-72 | reading laid-out kerning rows gives the table they build, or ArgumentOutOfRangeException when a distance list is shorter than its right list |
| FontReading.TrailerFromFields | MonoGame.Framework/Content/ContentReaders/SpriteFontReader.cs:74-88 | the trailer of a stream gives the offsets, the default character when the flag is set, and a scale of 1 with no trailing float, else the last of at most two |
| FontReading.DecodeEncode | MonoGame.Framework/Content/ContentReaders/SpriteFontReader.cs:47-98 | the fresh branch reads back every field of an asset laid out as the writer lays it out, and consumes it all when it has at most two trailing floats; a short distance list fails |
| FontReading.DecodedKerningIsLastWritten | MonoGame.Framework/Content/ContentReaders/SpriteFontReader.cs:54-71 | on a font read from an encoded asset, GetKerning returns the distance written last for a pair (last row of the left character, last occurrence of the right one), and 0 when either character is NUL |
| FontReading.DecodedKerningUnwritten | MonoGame.Framework/Content/ContentReaders/SpriteFontReader.cs:54-71 | on a font read from an encoded asset, GetKerning gives 0 for a left character with no row, and for a right character missing from the left character's last row |
| FontReading.TruncatedAssetFails | MonoGame.Framework/Content/ContentReaders/SpriteFontReader.cs:74-80 | a stream that ends after the offsets list fails with EndOfStreamException at the default-character flag |
| FontReading.ReloadAsWrittenRejectsEveryAsset | MonoGame.Framework/Content/ContentReaders/SpriteFontReader.cs:21-43 | the reload branch as written reads the left kerning character list as a Vector3 list, so it throws InvalidCastException on every asset |
| FontReading.BuildRow | MonoGame.Framework/Content/ContentReaders/SpriteFontReader.cs:59-69 | the inner loop builds the kerning row when every right character has a distance, and throws ArgumentOutOfRangeException otherwise |
| FontReading.ReadHeader | MonoGame.Framework/Content/ContentReaders/SpriteFontReader.cs:47-55 | the six header reads and the left-character list read give the decoded header, seven fields on |
| FontReading.ReadKerning | MonoGame.Framework/Content/ContentReaders/SpriteFontReader.cs:54-72 | the kerning loop gives the decoded table and reads two fields per left character |
| FontReading.ReadTrailer | MonoGame.Framework/Content/ContentReaders/SpriteFontReader.cs:74-88 | the offsets, flag, default-character and scale reads give the decoded trailer and end where it ends |
| FontReading.ReadFontData | MonoGame.Framework/Content/ContentReaders/SpriteFontReader.cs:47-88 | every read of the fresh branch, in order, gives the decoded asset |
| FontReading.Read | MonoGame.Framework/Content/ContentReaders/SpriteFontReader.cs:19-100 | (corrected as in Findings) a decoding failure is the reader's failure; without an existing instance the result is a new SpriteFont holding the decoded fields exactly when the SpriteFont constructor accepts them; with one, the same fields are read and the existing font comes back |
| KeyboardInput.KeyCodesInMembers | MonoGame.Framework/Platform/Input/Keyboard.Windows.cs:191-199 | a code is among the defined key codes exactly when the Keys table lists it and it lies in 1..255; Keys.None never is |
| KeyboardInput.DefinedKeyCodes | MonoGame.Framework/Platform/Input/Keyboard.Windows.cs:191-199 | the static constructor's loop keeps the table's codes in 1..255, in table order |
| KeyboardInput.Released | MonoGame.Framework/Platform/Input/Keyboard.Windows.cs:222-225 | a key is released exactly when its key-state byte is below 0x80, the high bit clear |
| KeyboardInput.StillPressedMembers | MonoGame.Framework/Platform/Input/Keyboard.Windows.cs:206 | RemoveAll keeps exactly the listed keys still held and adds no repeat |
| KeyboardInput.AppendPressedMembers | MonoGame.Framework/Platform/Input/Keyboard.Windows.cs:208-216 | the corrected append loop lists exactly the keys listed before plus the held defined codes, each once |
| KeyboardInput.PolledLists | MonoGame.Framework/Platform/Input/Keyboard.Windows.cs:204-216 | after a poll the list holds exactly the held defined keys, none twice |
| KeyboardInput.AppendPressedKeys | MonoGame.Framework/Platform/Input/Keyboard.Windows.cs:208-216 | the loop over the defined codes computes the corrected append |
| KeyboardInput.AsWrittenAppendsAgain | MonoGame.Framework/Platform/Input/Keyboard.Windows.cs:208-216 | as written, the loop appends a held key once more for each time the table lists it, whether or not the list holds it already |
| KeyboardInput.StillPressedKeepsCount | MonoGame.Framework/Platform/Input/Keyboard.Windows.cs:206 | RemoveAll keeps every copy of a held key |
| KeyboardInput.HeldKeyAccumulates | MonoGame.Framework/Platform/Input/Keyboard.Windows.cs:204-216 | as written, each poll adds one more copy of a held key to the list |
| KeyboardInput.Keyboard.constructor | MonoGame.Framework/Platform/Input/Keyboard.Windows.cs:25-200 | the keyboard starts inactive with an empty key list, a zeroed 256-byte buffer and the defined codes of the table |
| KeyboardInput.Keyboard.IsKeyReleased | MonoGame.Framework/Platform/Input/Keyboard.Windows.cs:222-225 | a key is released exactly when its buffer byte has the high bit clear |
| KeyboardInput.Keyboard.PlatformGetState | MonoGame.Framework/Platform/Input/Keyboard.Windows.cs:202-220 | an active keyboard whose poll succeeds (with the append corrected as under Findings) copies the polled buffer and lists exactly the held defined keys, once each; otherwise nothing changes; the state returned holds the key list |
| KeyboardInput.Keyboard.SetActive | MonoGame.Framework/Platform/Input/Keyboard.Windows.cs:227-232 | sets the active flag, and deactivating clears the key list |
| WinFormsMessages.CheckedInt32 | MonoGame.Framework/Platform/Windows/WinFormsGameForm.cs:146 | IntPtr.ToInt32 in a 64-bit process returns the value exactly when it fits 32 bits and throws OverflowException otherwise |
| WinFormsMessages.GetPointerId | MonoGame.Framework/Platform/Windows/WinFormsGameForm.cs:17-20 | throws OverflowException exactly when WParam is outside the 32-bit range; otherwise the id is the 16-bit signed value congruent to WParam modulo 2^16 |
| WinFormsMessages.PointerIdRoundTrip | MonoGame.Framework/Platform/Windows/WinFormsGameForm.cs:17-20 | an id carried in the low word of WParam is read back when the high word is a 16-bit signed value, and any other high word throws OverflowException |
| WinFormsMessages.GetPointerLocation | MonoGame.Framework/Platform/Windows/WinFormsGameForm.cs:22-31 | the location throws OverflowException exactly when LParam does not fit 32 bits; X and Y are 16-bit signed values |
| WinFormsMessages.PointerLocationRoundTrip | MonoGame.Framework/Platform/Windows/WinFormsGameForm.cs:22-31 | a point packed with X in the low word and Y in the high word is read back, negative coordinates included |
| WinFormsMessages.ScanCode | MonoGame.Framework/Platform/Windows/WinFormsGameForm.cs:183 | the scan code is a byte |
| WinFormsMessages.KeystrokeRoundTrip | MonoGame.Framework/Platform/Windows/WinFormsGameForm.cs:181-183 | a keystroke LParam gives back the extended flag of bit 24 and the scan code of bits 16-23, whatever the other fields hold |
| WinFormsMessages.KeyCodeTranslate | MonoGame.Framework/Platform/Windows/WinFormsGameForm.cs:233-259 | Control and Alt go right with the extended bit, Shift by scan code 0x36, every other code unchanged; TranslationIsSided states what this means: the result is always a sided key and a fixed point of the translation |
| WinFormsMessages.TranslationIsSided | MonoGame.Framework/Platform/Windows/WinFormsGameForm.cs:233-259 | the translated key is never a generic Control, Shift or Alt code, so translating it again changes nothing; a code passes through unchanged exactly when it is not one of those four |
| WinFormsMessages.ExtendedModifiers | MonoGame.Framework/Platform/Windows/WinFormsGameForm.cs:233-254 | a key-down message for Control or Alt reports the right-hand key exactly when its LParam has the extended bit, and the left-hand key otherwise |
| WinFormsMessages.ShiftBySide | MonoGame.Framework/Platform/Windows/WinFormsGameForm.cs:244-248 | a key-down message for Shift reports RightShift exactly for scan code 0x36 and LeftShift otherwise, whatever the extended bit |
| WinFormsMessages.HandleKeyMessage | MonoGame.Framework/Platform/Windows/WinFormsGameForm.cs:179-205 | a key-down event comes only from KEYDOWN or SYSKEYDOWN and a key-up event only from KEYUP or SYSKEYUP, and a raised key is always accepted by `IsKey` and sided; ExtendedModifiers and ShiftBySide state which side a modifier message reports |
| WinFormsMessages.KeystrokeDown | MonoGame.Framework/Platform/Windows/WinFormsGameForm.cs:179-205 | a key-down message reports the translation of its own WParam, extended flag and scan code |
| WinFormsMessages.HorizontalWheelDelta | MonoGame.Framework/Platform/Windows/WinFormsGameForm.cs:164 | the wheel delta is a 16-bit signed value |
| WinFormsMessages.WheelRoundTrip | MonoGame.Framework/Platform/Windows/WinFormsGameForm.cs:163-169 | the delta in the high word of WParam is read back whatever the key flags in the low word |
| WinFormsMessages.WndProc | MonoGame.Framework/Platform/Windows/WinFormsGameForm.cs:76-177 | the static handler throws only OverflowException and only for WM_KEYDOWN or WM_SYSCOMMAND, never passes a message on itself, and minimises only on WM_KEYDOWN; KeyMessagesDispatch and OnlyWindowsKeyMinimizes state its key handling exactly |
| WinFormsMessages.FormWndProc | MonoGame.Framework/Platform/Windows/WinFormsGameForm.cs:70-74 | the override passes every message the static handler accepts on to the base form's procedure, and propagates the handler's OverflowException otherwise; KeyMenuSwallowed shows SC_KEYMENU answered with 0 and still passed on |
| WinFormsMessages.KeyMenuSwallowed | MonoGame.Framework/Platform/Windows/WinFormsGameForm.cs:70-74 | the static handler answers SC_KEYMENU with 0 whatever the window and LParam (lines 154-160), and the override then passes the message on to the base form's procedure with that result |
| WinFormsMessages.CloseSwallowed | MonoGame.Framework/Platform/Windows/WinFormsGameForm.cs:144-161 | for an LParam in the 32-bit range, SC_CLOSE is answered with 0 exactly when Alt+F4 is not allowed, LParam is 0 and the game view has focus |
| WinFormsMessages.CloseLParamChecked | MonoGame.Framework/Platform/Windows/WinFormsGameForm.cs:146-151 | an LParam outside the 32-bit range makes SC_CLOSE throw OverflowException exactly when Alt+F4 is not allowed, the only case in which it is converted; otherwise the message has no effect |
| WinFormsMessages.WheelReported | MonoGame.Framework/Platform/Windows/WinFormsGameForm.cs:163-169 | a horizontal wheel message gives its delta to a registered handler, and nothing without one |
| WinFormsMessages.KeyMessagesDispatch | MonoGame.Framework/Platform/Windows/WinFormsGameForm.cs:118-138 | the four key messages raise key-down or key-up events with the translated key, for accepted keys only; only WM_KEYDOWN converts WParam to 32 bits, after raising its event, so an out-of-range WParam throws OverflowException with the event already raised |
| WinFormsMessages.OnlyWindowsKeyMinimizes | MonoGame.Framework/Platform/Windows/WinFormsGameForm.cs:118-129 | a message minimises the form exactly when it is a Left or Right Windows key-down and the window is full screen, hardware-switched and has a form; no other message does |
| WinFormsWindow.TouchEdges | MonoGame.Framework/Platform/Windows/WinFormsGameWindow.cs:302-326 | an active in-client sample reports Pressed on the left button's press, Moved while held, Released on release and nothing while up; otherwise only a held button reports Released, at the cursor clamped into the client area |
| WinFormsWindow.TraceIsGestures | MonoGame.Framework/Platform/Windows/WinFormsGameWindow.cs:316-326 | the touch states successive samples report always form well-formed gestures: a press only when none is down, a move or release only while one is |
| WinFormsWindow.PresentationReachesRequest | MonoGame.Framework/Platform/Windows/WinFormsGameWindow.cs:684-707 | unless an inactive window leaves exclusive full screen by minimising, the window ends full screen exactly when asked and with the requested mode switch; the mode changes exactly on enter, exit or minimise |
| WinFormsWindow.ClientSizeChangedOnSwitch | MonoGame.Framework/Platform/Windows/WinFormsGameWindow.cs:684-713 | ClientSizeChanged is raised once, last, exactly when full screen was entered, or left through ExitFullScreen; leaving by minimising raises nothing; the device leaves full screen exactly on exit or minimise and enters it exactly on enter |
| WinFormsWindow.GameWindow.constructor | MonoGame.Framework/Platform/Windows/WinFormsGameWindow.cs:140-181 | a new window has a fixed single border, no maximise box, the default client size, and is not resizable, borderless or full screen |
| WinFormsWindow.GameWindow.SetAllowUserResizing | MonoGame.Framework/Platform/Windows/WinFormsGameWindow.cs:71-87 | sets resizability; an unchanged value changes nothing; otherwise the maximise box follows it and the border matches it unless borderless |
| WinFormsWindow.GameWindow.SetBorderless | MonoGame.Framework/Platform/Windows/WinFormsGameWindow.cs:119-133 | sets borderlessness, and the border style becomes the one the two flags call for |
| WinFormsWindow.GameWindow.OnMouseEnter | MonoGame.Framework/Platform/Windows/WinFormsGameWindow.cs:329-337 | the cursor is in bounds, and hidden exactly when it was already or the game wants it invisible |
| WinFormsWindow.GameWindow.OnMouseLeave | MonoGame.Framework/Platform/Windows/WinFormsGameWindow.cs:339-347 | the cursor is out of bounds and shown again |
| WinFormsWindow.GameWindow.MouseVisibleToggled | MonoGame.Framework/Platform/Windows/WinFormsGameWindow.cs:667-682 | a visible cursor is shown; an invisible one is hidden while in bounds and otherwise left as it was |
| WinFormsWindow.GameWindow.UpdateMouseState | MonoGame.Framework/Platform/Windows/WinFormsGameWindow.cs:277-327 | before the form is visible nothing changes; otherwise the mouse state takes the cursor and the five button flags, and the touch events of the left-button edge are queued |
| WinFormsWindow.GameWindow.OnActivated | MonoGame.Framework/Platform/Windows/WinFormsGameWindow.cs:247-253 | the platform becomes active |
| WinFormsWindow.GameWindow.OnDeactivate | MonoGame.Framework/Platform/Windows/WinFormsGameWindow.cs:255-265 | the platform becomes inactive; a minimised window in exclusive full screen leaves full screen minimised, bordered and at the remembered location, which stays as it was; otherwise the mode, border, form, remembered form state and device are untouched |
| WinFormsWindow.GameWindow.OnPresentationChanged | MonoGame.Framework/Platform/Windows/WinFormsGameWindow.cs:684-713 | the branch picked from the request and the current mode runs; the client size becomes the back buffer's; the device calls and ClientSizeChanged are those of the branch; per branch, the form, border flag, remembered form state and remembered location are those the called helper leaves, and IsActive is untouched |
| WinFormsWindow.GameWindow.EnterFullScreen | MonoGame.Framework/Platform/Windows/WinFormsGameWindow.cs:717-742 | the window is full screen with the requested mode switch; the windowed location is remembered only when coming from a window; borderless full screen shows the form borderless and maximised and remembers Maximized; exclusive full screen leaves the form, border and remembered form state as they were |
| WinFormsWindow.GameWindow.ExitFullScreen | MonoGame.Framework/Platform/Windows/WinFormsGameWindow.cs:749-766 | the window is bordered, normal and moved to the location remembered before full screen, which stays as it was; the device leaves full screen and the desktop is redrawn after borderless full screen |
| WinFormsWindow.GameWindow.MinimizeFullScreen | MonoGame.Framework/Platform/Windows/WinFormsGameWindow.cs:768-785 | as ExitFullScreen, but the form ends minimised: bordered, at the unchanged remembered location |
| RenderTargets.BindTarget2D | MonoGame.Framework/Graphics/RenderTargetBinding.cs:86-94 | a null target is ArgumentNullException, and only it; otherwise slice PositiveX (0) of the target with its depth format |
| RenderTargets.BindCubeFace | MonoGame.Framework/Graphics/RenderTargetBinding.cs:106-116 | null is ArgumentNullException; a face outside PositiveX..NegativeZ is ArgumentOutOfRangeException, exactly those; otherwise that face with the target's depth format |
| RenderTargets.BindArraySlice | MonoGame.Framework/Graphics/RenderTargetBinding.cs:130-142 | null is ArgumentNullException; a slice outside [0, ArraySize) is ArgumentOutOfRangeException, exactly those; an in-range slice on a device without texture arrays is InvalidOperationException; otherwise that slice |
| RenderTargets.BindTarget3D | MonoGame.Framework/Graphics/RenderTargetBinding.cs:149-157 | null is ArgumentNullException, and only it; otherwise slice 0 with the target's depth format |
| RenderTargets.BindDepthSlice | MonoGame.Framework/Graphics/RenderTargetBinding.cs:168-178 | null is ArgumentNullException; a slice outside [0, Depth) is ArgumentOutOfRangeException, exactly those; otherwise that slice |
| RenderTargets.BindingsAreWellFormed | MonoGame.Framework/Graphics/RenderTargetBinding.cs:86-202 | every binding a constructor or implicit conversion builds names a slice its target has and carries the target's depth format, and each of them rejects null |
| RenderTargets.WholeTargetIsSliceZero | MonoGame.Framework/Graphics/RenderTargetBinding.cs:130-178 | the whole-target constructors agree with binding slice 0 where that is allowed, but skip its checks: a 3D target of depth 0 and a 2D target on a device without texture arrays still bind |
| PixelPacking.SplitBytes | MonoGame.Framework/Platform/Graphics/Texture2D.System.Drawing.cs:46-49 | shifting and masking a packed word gives back each of the four bytes packed into it |
| PixelPacking.JoinBytes | MonoGame.Framework/Platform/Graphics/Texture2D.System.Drawing.cs:44-63 | every 32-bit word is its four bytes put back together, so unpacking loses nothing |
| PixelPacking.PremultiplyBounds | MonoGame.Framework/Platform/Graphics/Texture2D.BigGustave.cs:50-53 | a premultiplied channel is the floor of channel times alpha over 255: never above the channel or alpha, the channel itself at full alpha, 0 at zero alpha |
| PixelPacking.LoadedPixelBytes | MonoGame.Framework/Platform/Graphics/Texture2D.BigGustave.cs:43-62 | a loaded texel keeps alpha in its top byte with channels no larger than alpha or their own value below it; an opaque pixel is packed unchanged and a transparent one is 0 |
| TextureBigGustave.TexelAt | MonoGame.Framework/Platform/Graphics/Texture2D.BigGustave.cs:31-66 | there is one texel per pixel, and pixel (x, y), premultiplied and packed, is at index y·width + x |
| TextureBigGustave.PlatformFromStream | MonoGame.Framework/Platform/Graphics/Texture2D.BigGustave.cs:28-69 | an empty image throws IndexOutOfRangeException where element 0 is pinned; otherwise the new texel array holds every pixel, premultiplied and packed, row by row |
| TextureBigGustave.CopyRow | MonoGame.Framework/Platform/Graphics/Texture2D.BigGustave.cs:41-66 | the inner loop writes row y's texels at the advancing pointer, which ends one row further on |
| TextureSystemDrawing.ArgbRoundTrip | MonoGame.Framework/Platform/Graphics/Texture2D.System.Drawing.cs:34-49 | the 32-bit ARGB word and the colour convert into each other both ways |
| TextureSystemDrawing.PlatformFromStream | MonoGame.Framework/Platform/Graphics/Texture2D.System.Drawing.cs:28-70 | an empty bitmap throws IndexOutOfRangeException where element 0 is pinned; otherwise texel i is ARGB word i with its channels premultiplied and swapped into the texel layout |
| TextureSystemDrawing.SameTexel | MonoGame.Framework/Platform/Graphics/Texture2D.System.Drawing.cs:44-63 | for the same pixel the System.Drawing loader stores the same texel as the BigGustave loader |
| TextureSystemDrawing.LoadersAgree | MonoGame.Framework/Platform/Graphics/Texture2D.System.Drawing.cs:44-67 | for the same image the two loaders produce the same texel array |
| ImageWriting.UnpackPack | MonoGame.Framework/Platform/Graphics/ImageWriter.BigGustave.cs:35-38 | unpacking a texel inverts the loaders' packing, and every texel is the packing of its unpacking |
| ImageWriting.SaveAfterLoad | MonoGame.Framework/Platform/Graphics/ImageWriter.BigGustave.cs:23-48 | saving a loaded texture writes the premultiplied colours, so opaque pixels come back as loaded |
| ImageWriting.CreateFromPixelData | MonoGame.Framework/Platform/Graphics/ImageWriter.BigGustave.cs:23-48 | a new width × height builder whose pixel (x, y) is texel x + y·width unpacked |
| ImageWriting.UnpackedAt | MonoGame.Framework/Platform/Graphics/ImageWriter.BigGustave.cs:29-44 | in a filled builder, pixel (x, y) is texel x + y·width unpacked, and that index lies inside the data |
| ImageWriting.UnpackRow | MonoGame.Framework/Platform/Graphics/ImageWriter.BigGustave.cs:31-43 | the inner loop fills row y and keeps the rows before it |
| ImageWriting.SavesOnlyWhatItCan | MonoGame.Framework/Platform/Graphics/ImageWriter.BigGustave.cs:55-81 | only a PNG of the texture's own size, with data and a stream, is written; null data or stream is ArgumentNullException, a non-positive size ArgumentOutOfRangeException, JPEG always fails and so does a resize |
| ImageWriting.SaveAsImage | MonoGame.Framework/Platform/Graphics/ImageWriter.BigGustave.cs:50-84 | fails with the first failing check, in the source's order, exactly when one fails; otherwise the grid written is the texture's texels unpacked |

## Left out

- Floating point: `float` values (advances, spacing, scale, bearings, positions) are `real`, so single-precision rounding is not modelled. The texture loaders' `(uint)(c * alpha / 255f)` is modelled as the exact integer floor. For a byte times a byte divided by 255, the quotient is never close enough to the next integer for single precision to change the result.
- Sprite geometry: rotation, scale, flips, origin, the transform matrices and the texture coordinates of `SpriteBatch` are not modelled. A batch item records its texture, its sort key and the point its quad starts from. Source rectangles are not modelled either.
  - The `Draw` overload that takes a quad array and an index array (SpriteBatch.cs:692-727) is modelled as a vertex draw that always succeeds. In the source it creates the batch item first and then indexes both arrays. So it throws `IndexOutOfRangeException`, with the item already queued, when the index array has fewer than four entries or an index falls outside the quad. A null array gives `NullReferenceException`. Neither failure is modelled.
- `SpriteBatcher` sorting, pooling and vertex output are not part of this model. The batcher is an append-only item list plus the log of its `DrawBatch` calls.
- GPU state: `SpriteBatch.Setup`, `SpriteEffect`, blend, sampler, depth-stencil and rasterizer states, and `Dispose` are device calls outside this model.
- SpriteBatches.SpriteBatch.MeasurePass: the `MeasureString(ref CharacterSource, out size)` overload that the flipped `DrawString` calls is not in this model's SpriteFont.cs. The pass is modelled as a lookup of every character other than CR and LF, as the glyph loop does. The size it computes feeds only the flip geometry, which is left out.
- SpriteBatches.SpriteBatch.DrawIndexed: requires every glyph index to lie in [-2, glyph count). The source checks nothing and reads the glyph through an unsafe pointer, so any other index reads memory outside the glyph array, which the model cannot express. Its only caller passes PrepareDrawString's output, which meets the requirement (PreparedIndicesDecode).
- SpriteBatches.SpriteBatch.PrepareDrawString: for empty text the source returns the shared `Array.Empty<int>()` (`EmptyInt` on .NET 4), while the model returns a fresh empty array. The aliasing of that shared instance between calls is not modelled.
- `SpriteFont`: the texture's pixel data is not modelled. Neither are the `Characters` and `Glyphs` views, which are copies of the constructor's data.
- FreeType: the native calls are not modelled. The importer receives sized faces as values that answer glyph-index, rendered-slot and kerning queries. `char.IsLetter` is a parameter.
  - Opening faces (`CreateFontFaces`, `CreateFontFace`, SharpFontImporter.cs:155-172) is left out.
  - That covers the pixel height passed to `SetPixelSizes(0, height)`: `(uint)Size`, scaled when Scale is neither 0 nor 1.
  - It also covers the PipelineException thrown when the face that comes back is "Microsoft Sans Serif" but another font name was asked for.
  - `LoadGlyph`, `Embolden`, `RenderGlyph`, `GetKerning` and `Marshal.Copy` are left out too.
- FontProcessing.SpriteFontContent.constructor: models only the fields `Process` goes on to set. The font name, style, size, horizontal spacing and default character that SpriteFontContent.cs:18-25 copies from the description are not modelled.
- `GlyphCropper` and `GlyphPacker` are not part of this model. `Process` takes the cropping and packing step as a parameter, `arrange`.
- FontProcessing.LastDot: `Path.GetExtension` is modelled as on Windows, where both '/' and '\\' end the file name. On other platforms only '/' does. The Windows volume separator ':' is not treated as a separator.
- `FontDescriptionProcessor`: `GetFontPath`, the `File.Exists` checks and the Windows registry branch of `FindFont` depend on the file system and registry, so they are left out.
  - The check at FontDescriptionProcessor.cs:112 tests `File.Exists(fontFile2)` where `fontFile3` is meant. It lies in this left-out part.
  - `texProfile.ConvertTexture` is left out.
  - Running `fc-match` is left out; its standard output is a parameter.
  - `ToLowerInvariant` is a parameter.
- `SpriteFontReader`: the stream is a sequence of typed fields, and a read of the wrong type is an `InvalidCastException`. Byte-level encoding, shared-resource references and null objects are not modelled. Neither is loading the texture object itself.
- `Keyboard`: `GetKeyboardState` is a parameter (whether it succeeded, and the buffer it produced). The Caps Lock and Num Lock flags of the returned `KeyboardState` are not modelled; the state returned is the key list.
- `WinFormsGameForm`:
  - The `SetWindowPos` call of WM_DPICHANGED is left out.
  - The `DragQueryFile` loop of WM_DROPFILES is left out; only its result 0 is modelled.
  - `CenterOnPrimaryMonitor` and the form constructor are layout glue and are left out.
  - Only the DirectX build, which handles key messages, is modelled.
  - `KeysHelper.IsKey` is a parameter.
  - What the base form's procedure (`base.WndProc`) does with a message is not modelled; the model records only that the override passes the message on.
- `WinFormsGameWindow`:
  - The window registry and its lock, the message loop (`RunLoop`, `TickOnIdle`) and the resize timer and handlers (`OnResize`, `OnResizeBegin`, `OnResizeTick`, `OnResizeEnd`) are left out.
  - `Initialize`, the `Position` setter, `SetIcon`, `Title` and `DragAcceptFiles` are left out.
  - The scroll-wheel accumulators are left out.
  - `GetCursorPos` and `MapWindowPoints` are left out: the cursor position in client coordinates is a parameter, and so are the mouse buttons.
  - The screen scale of the default size is left out: the constructor takes the scaled size.
  - Device calls and raised events are entries in an effect log.
- WinFormsWindow.GameWindow.OnActivated: sets the active flag only; the `Keyboard.SetActive` and `DragAcceptFiles` calls it makes are not connected to the keyboard model.
- WinFormsWindow.GameWindow.OnDeactivate: `Keyboard.SetActive(false)` is not connected to the keyboard model.
- WinFormsWindow.GameWindow.OnPresentationChanged: `ChangeClientSize` also centres the form on the primary monitor when the user has not moved the window. The screen's working area and the moved flag are not modelled, so the contract gives the location each branch leaves before that centring.
- Texture loading:
  - Rewinding the stream is left out.
  - PNG and bitmap decoding are parameters: a pixel function, or the locked 32-bit ARGB buffer.
  - The `NETSTANDARD` branches are left out.
  - Creating the `Texture2D` and `SetData` are left out; the result is the texel array.
  - `PlatformSaveAsJpeg` and `PlatformSaveAsPng` only read the texture data and call `SaveAsImage`, which is modelled. The `GetData` read is left out.
- ImageWriting.CreateFromPixelData: requires the data to hold exactly `textureWidth × textureHeight` texels of a non-empty texture, as the texture's own callers pass. The source's behaviour on a shorter array, a pointer overrun, is not modelled.
- ImageWriting.SaveAsImage: requires the same of non-null data, for the same reason. `PngBuilder.Save` encoding is not modelled: the result is the pixel grid that would be written.
- Concurrency: the model is sequential throughout.
- `List.Sort` in `ImportFont` is not stable, but the model's insertion sort is. With distinct characters, which the import produces, the two agree.

## Findings

| source | as written | input that shows it | evidently intended | confidence | as-written member | corrected member |
|---|---|---|---|---|---|---|
| MonoGame.Framework/Graphics/SpriteFont.cs:354-358 | the first probe of `TryGetGlyphIndex` is `c * r / (Start[0] + Start[r])`, which can fall outside the region array, divides by zero when both starts are NUL, and reads region 0 of an empty array | characters NUL, 2, 3, 4 (regions [0..0] and [2..4]): the probe for 4 is 2, past the 2 regions; a single region starting at NUL divides by zero for every character | every probe lies in `[0, regions.Length)`, as the Debug.Assert at line 358 demands | not executed | SpriteFonts.ProbeOverrunsRegions | SpriteFonts.FirstProbe |
| MonoGame.Framework/Graphics/SpriteFont.cs:153-169 | the `DefaultCharacter` setter passes the cached glyph index itself as the `out` argument, so a failed set stores -1 there but keeps the old character | default '?' in a font of '?' and 'A'; set the default to '@' (U+0040): the regions are [63..63] and [65..65], the first probe 64·1/(63+65) = 0 stays in range, and neither region holds '@', so the lookup fails: ArgumentException, the default is still '?' but its cached index is -1 | a failed set throws and changes nothing, so the character and the cached index stay consistent | not executed | SpriteFonts.FailedDefaultSetStrandsCharacter | SpriteFonts.SetDefaultKeepsConsistency |
| MonoGame.Framework/Content/ContentReaders/SpriteFontReader.cs:21-43 | the reload branch reads the offsets list right after the spacing, skipping the kerning lists the writer puts there | any asset: the field after the spacing is the list of left kerning characters, so the Vector3 list read throws InvalidCastException | the reload branch consumes the same fields as the fresh branch and returns the existing font | not executed | FontReading.ReloadAsWrittenRejectsEveryAsset | FontReading.Read |
| MonoGame.Framework/Platform/Input/Keyboard.Windows.cs:206-216 | the poll keeps held keys in the list and then appends every held key again | key A held over two polls: the list holds A twice after the second poll, and once more after each further poll | each held key is listed once (append only keys not yet listed) | not executed | KeyboardInput.HeldKeyAccumulates | KeyboardInput.PolledLists |
