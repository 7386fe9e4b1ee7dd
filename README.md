# fae core, modelled in Dafny

This project models the core of fae, a 2D sprite and text renderer over
OpenGL, and proves properties of the model. Each source file of the core is
one Dafny module:

- the glyph atlas (`glyph_line.dfy`, `glyph_cache.dfy`): a shelf packer that
  places rasterised glyphs into horizontal lines of a texture, evicting
  glyphs not used during the current frame;
- text layout and the text draw queues (`text_layout.dfy`, `text_dummy.dfy`,
  `text_renderer.dfy`) and two font metric providers (`font8x8.dfy`,
  `dummy_font.dfy`);
- the per-texture quad vertex buffers of both renderer versions
  (`renderer.dfy`, `renderer_mod.dfy`);
- the OpenGL version string parser (`gl_version.dfy`) and the GLSL preamble
  selection and rewriting (`shaders_pair.dfy`, `shaders_mod.dfy`);
- small value types (`rect.dfy`, `types.dfy`, `image.dfy`);
- the immediate-mode UI of four versions (`ui_old.dfy`, `ui_mod.dfy`,
  `ui_element.dfy`, `ui_element_mod.dfy`), its layout controller
  (`ui_layout.dfy`) and its text fields (`ui_input.dfy`);
- the input bookkeeping of the three window backends (`window_input.dfy`,
  `window_glutin_old.dfy`, `window_glutin.dfy`, `window_glfw.dfy`) and the
  vsync-detecting frame timer (`frame_timer.dfy`).

`wrappers.dfy` holds `Option` and `Result`, and `rust_int.dfy` holds Rust's
truncating integer division, `min` and `max`.

The repository keeps several historical versions of the same component side
by side (`src/renderer.rs` and `src/renderer/mod.rs`, `src/window_glutin.rs`
and `src/window/window_glutin.rs`, four versions of the UI). Each version is
modelled on its own terms.

State the source keeps in globals or objects and updates in place (the glyph
cache, the vertex buffers and quad counts, the UI state, the text fields, the
layout controller, the frame timer, the window's input lists) is a Dafny
class whose methods are proved against specification functions. Pure code is
functions, with lemmas about them. Floating-point values are reals.
Instants are integer nanoseconds. Platform events, the clock and the
`element_hash` function are parameters.

Where the source does something its authors evidently did not intend, the
model contains the code as written, a lemma exhibiting the input that shows
it, and a corrected version that the rest of the model uses. These are listed
under "## Findings".

## Model

| member | source | states |
|---|---|---|
| `GlyphLines.OneStepExpired` | src/text/glyph_cache.rs:30-37 | one step never yields used-this-frame, and yields used-last-frame exactly from used-this-frame |
| `GlyphLines.PackedIncreasing` | src/text/glyph_cache.rs:140-166 | on a packed line every spot ends at least GAP left of every later spot |
| `GlyphLines.PackedIsSorted` | src/text/glyph_cache.rs:190-194 | a packed line is sorted by x, as the binary search of `reserve` needs |
| `GlyphLines.PackedBoundsMonotone` | src/text/glyph_cache.rs:147-158 | the left and right bounds of the gaps `reserve_width` compares only grow from gap to gap |
| `GlyphLines.GapFromFirstFit` | src/text/glyph_cache.rs:147-165 | the gap search from gap `i` fails exactly when no later gap fits, and otherwise answers the left end of the first gap that fits |
| `GlyphLines.ReserveWidthIsFirstFit` | src/text/glyph_cache.rs:140-166 | an empty line answers MARGIN; otherwise the answer is None exactly when no gap holds `width`, and else the left end (previous right + GAP, or MARGIN) of the first gap that does |
| `GlyphLines.EvictScan` | src/text/glyph_cache.rs:92-118 | the collected range lies inside the line and holds no spot used during this frame |
| `GlyphLines.EvictScanNext` | src/text/glyph_cache.rs:92-118 | one iteration: the range stays free of this frame's spots, ends just after the spot looked at when it is not empty, and the loop stops exactly when `right - left >= width` |
| `GlyphLines.EvictWidthRemovesUnusedRun` | src/text/glyph_cache.rs:88-129 | `evict_width` changes only the spots; on None the line is unchanged; on Some it removes one contiguous run of spots none of which was used during this frame |
| `GlyphLines.EvictWidthMakesRoom` | src/text/glyph_cache.rs:98-125 | for a width of at least 1, a Some(left) answer removes a non-empty run whose room, from the previous spot's right + GAP (or MARGIN) to the next spot's left - GAP (or the width - MARGIN), holds `width` |
| `GlyphLines.SearchX` | src/text/glyph_cache.rs:190-193 | `binary_search_by` on x: Found points at a spot with that x; NotFound gives the index that keeps a sorted line sorted |
| `GlyphLines.IndexOfId` | src/text/glyph_cache.rs:298-300 | upgrading a weak reference finds the first spot with that identity, or reports that none is left |
| `GlyphLines.SearchFindsGap` | src/text/glyph_cache.rs:190-194 | on a sorted line the search answers the position between the spots left and right of `x` |
| `GlyphLines.InsertKeepsSorted` | src/text/glyph_cache.rs:190-197 | inserting at the search position, and not at all on an equal x, keeps the line sorted |
| `GlyphLines.RemoveRunKeepsSorted` | src/text/glyph_cache.rs:122 | splicing out a run keeps a sorted line sorted |
| `GlyphLines.ReserveKeepsLineSorted` | src/text/glyph_cache.rs:168-201 | `reserve` keeps the spots sorted by x whatever its inputs |
| `GlyphLines.ReserveOutcome` | src/text/glyph_cache.rs:168-201 | a height outside [min_height, max_height] gives None and no change; a Some is the new spot, and the height becomes max(height, old); only the spots and the height change; without eviction a None changes nothing and a Some inserts the spot (x from `reserve_width`, the line's y, the size, used this frame) |
| `GlyphLines.SpliceKeepsPacked` | src/text/glyph_cache.rs:194 | a spot spliced in between neighbours whose gap holds it keeps the line packed |
| `GlyphLines.InsertIntoGapKeepsPacked` | src/text/glyph_cache.rs:173-194 | a spot placed at the left end of a gap that holds it lands at that gap's index and keeps the line packed |
| `GlyphLines.RemoveRunKeepsPacked` | src/text/glyph_cache.rs:122 | splicing out a run keeps the line packed, and the room left spans from the run's left neighbour to its right neighbour |
| `GlyphLines.FirstFitIndex` | src/text/glyph_cache.rs:147-162 | the gap `reserve_width` picks holds the width and is where its answer comes from |
| `GlyphLines.ReserveKeepsLinePacked` | src/text/glyph_cache.rs:168-201 | a packed line stays packed (no overlap, GAP between spots, MARGIN at the ends) through `reserve` of a width from 1 to `cacheWidth - 2*MARGIN` |
| `GlyphLines.WideGlyphOverruns` | src/text/glyph_cache.rs:141-143 | on an empty line a glyph wider than `cacheWidth - 2*MARGIN` is still placed at MARGIN, as the only spot, and the line is no longer packed |
| `GlyphLines.ExpireAgesEverySpot` | src/text/glyph_cache.rs:203-207 | every spot keeps its identity and place and ages one step, none is left used during this frame, and sortedness and packing are kept |
| `GlyphLines.GlyphLine.constructor` | src/text/glyph_cache.rs:56-72 | a new line is empty at `line_y`, with min_height `line_height / 2` and max_height `min(2 * line_height, cache_height - MARGIN - line_y)` |
| `GlyphLines.GlyphLine.EvictLoop` | src/text/glyph_cache.rs:89-118 | the loop ends in the state the scan specification gives |
| `GlyphLines.GlyphLine.EvictWidth` | src/text/glyph_cache.rs:88-129 | the answer and the new line are those of the eviction specification |
| `GlyphLines.GlyphLine.ReserveWidth` | src/text/glyph_cache.rs:140-166 | the answer is the first-fit specification's, and the line is unchanged |
| `GlyphLines.GlyphLine.Reserve` | src/text/glyph_cache.rs:168-201 | the answer and the new line are those of the `reserve` specification |
| `GlyphLines.GlyphLine.ExpireOneStep` | src/text/glyph_cache.rs:203-207 | every spot is aged one step and nothing else changes |
| `GlyphLines.GlyphLine.MarkUsed` | src/text/glyph_cache.rs:282 | exactly the one spot's status becomes used during this frame |
| `GlyphAtlas.Locate` | src/text/glyph_cache.rs:281 | upgrading a weak reference finds the first line, and in it the first spot, with that identity; None means the spot is gone from every line |
| `GlyphAtlas.SumHeightsIsNextY` | src/text/glyph_cache.rs:330-333 | on stacked lines, MARGIN plus every line's height and GAP is the y just GAP below the last line |
| `GlyphAtlas.CreateLinePlacement` | src/text/glyph_cache.rs:329-351 | a line is added exactly when `y + height <= cache height - MARGIN`, for y GAP below the last line (MARGIN on an empty cache); the new line is `GlyphLine::new(y, height)`, the previous last line's max_height is frozen to its height, and nothing else changes |
| `GlyphAtlas.ReserveKeepsLineOk` | src/text/glyph_cache.rs:168-201 | `reserve` keeps a line sorted, inside the texture and holding only spots of its own y no higher than itself; it keeps y and max_height, and a frozen line's height |
| `GlyphAtlas.ExistingKeepsWellFormed` | src/text/glyph_cache.rs:291-306 | asking each existing line in turn keeps the lines stacked and each line in bounds |
| `GlyphAtlas.CreateLineKeepsWellFormed` | src/text/glyph_cache.rs:329-351 | a new line keeps the lines stacked MARGIN from the top and GAP apart, every line but the last frozen, every line inside the texture |
| `GlyphAtlas.NewLineKeepsWellFormed` | src/text/glyph_cache.rs:308-317 | `reserve_uvs_from_new_line` keeps the cache well formed |
| `GlyphAtlas.FromCacheKeepsWellFormed` | src/text/glyph_cache.rs:279-289 | a cache lookup keeps the cache well formed |
| `GlyphAtlas.EvictAttemptKeepsWellFormed` | src/text/glyph_cache.rs:269-276 | the eviction attempt keeps the cache well formed |
| `GlyphAtlas.NewLineAttemptKeepsWellFormed` | src/text/glyph_cache.rs:267-276 | the new-line attempt, and the eviction after it, keep the cache well formed |
| `GlyphAtlas.MissKeepsWellFormed` | src/text/glyph_cache.rs:263-276 | the three sources tried on a miss keep the cache well formed |
| `GlyphAtlas.ReserveUvsKeepsWellFormed` | src/text/glyph_cache.rs:252-277 | `reserve_uvs` keeps the lines stacked GAP apart from MARGIN, each line sorted and inside the texture, every spot in its line's band |
| `GlyphAtlas.ReserveFresh` | src/text/glyph_cache.rs:168-201 | reserving with an identity above every identity of the line either leaves no spot of that identity, or answers it and holds it as a `width` by `height` spot at the line's y, used during this frame |
| `GlyphAtlas.ExistingFresh` | src/text/glyph_cache.rs:291-306 | when `reserve_uvs_from_existing` answers, its spot is the one the weak reference upgrades to, fresh and of the asked size; when it does not, no spot has that identity |
| `GlyphAtlas.NewLineFresh` | src/text/glyph_cache.rs:308-317 | likewise for `reserve_uvs_from_new_line`, which changes only the lines |
| `GlyphAtlas.CreateLineKeepsIds` | src/text/glyph_cache.rs:339-345 | a new line holds no spot, and the others keep theirs |
| `GlyphAtlas.EvictAttemptOutcome` | src/text/glyph_cache.rs:269-276 | eviction either records the key, answering `(texcoords, true)` for a live spot of the asked size, or answers the cache-full error with the map unchanged |
| `GlyphAtlas.NewLineAttemptOutcome` | src/text/glyph_cache.rs:267-276 | the same for a new line followed by eviction |
| `GlyphAtlas.MissOutcome` | src/text/glyph_cache.rs:263-276 | on a miss: existing lines, then a new line, then eviction; success records the key with the new spot's identity and answers `(texcoords, true)`, failure is `GlyphCacheFull` with the map unchanged |
| `GlyphAtlas.FromCacheOutcome` | src/text/glyph_cache.rs:279-289 | a live entry is a hit whose spot is now used during this frame; a dead or missing entry is a miss and the key is removed from the map; the lines change only in the hit spot's status |
| `GlyphAtlas.ReserveUvsOutcome` | src/text/glyph_cache.rs:252-277 | any Ok answer is the texture coordinates of a live spot the key maps to; `(_, false)` is a hit and leaves the map alone; `(_, true)` is a new spot of the asked size recorded under the key; an error leaves the key out of the map |
| `GlyphAtlas.FromCacheKeepsTidy` | src/text/glyph_cache.rs:279-289 | a lookup keeps every line packed |
| `GlyphAtlas.ExistingKeepsTidy` | src/text/glyph_cache.rs:291-306 | for a width from 1 to `cacheWidth - 2*MARGIN`, reserving in existing lines keeps every line packed |
| `GlyphAtlas.NewLineKeepsTidy` | src/text/glyph_cache.rs:308-317 | for a width from 1 to `cacheWidth - 2*MARGIN`, reserving in a new line keeps every line packed |
| `GlyphAtlas.MissKeepsTidy` | src/text/glyph_cache.rs:263-276 | for a width from 1 to `cacheWidth - 2*MARGIN`, a miss keeps every line packed |
| `GlyphAtlas.ReserveUvsKeepsTidy` | src/text/glyph_cache.rs:252-277 | for a glyph from 1 to `cacheWidth - 2*MARGIN` pixels wide, `reserve_uvs` keeps every line packed: no two spots of a line overlap or come closer than GAP |
| `GlyphAtlas.StackedBelow` | src/text/glyph_cache.rs:330-333 | of two stacked lines, the earlier ends at least GAP above the later |
| `GlyphAtlas.SpotInside` | src/text/glyph_cache.rs:14-17 | in a well-formed, packed cache every spot lies at least MARGIN inside the texture |
| `GlyphAtlas.SpotsApart` | src/text/glyph_cache.rs:14-17 | in a well-formed, packed cache any two different spots are at least GAP apart, so no glyph overwrites another |
| `GlyphAtlas.ExpireKeepsShape` | src/text/glyph_cache.rs:323-327 | expiry keeps the map, the lines and every spot's place and identity, leaves no spot used during this frame, and keeps the cache well formed and packed |
| `GlyphAtlas.GlyphCache.constructor` | src/text/glyph_cache.rs:240-246 | a new cache has no lines and no entries |
| `GlyphAtlas.GlyphCache.GetUvsFromCache` | src/text/glyph_cache.rs:279-289 | the answer and new state are the lookup specification's; no line object is replaced |
| `GlyphAtlas.GlyphCache.ReserveUvsFromExisting` | src/text/glyph_cache.rs:291-306 | the loop over the lines answers and updates as the specification of asking each line in turn |
| `GlyphAtlas.GlyphCache.TotalHeight` | src/text/glyph_cache.rs:330-333 | the loop sums MARGIN and every line's height plus GAP |
| `GlyphAtlas.GlyphCache.CreateLine` | src/text/glyph_cache.rs:329-351 | the lines are extended by one fresh line exactly as `CreateLineSpec` says, or left alone |
| `GlyphAtlas.GlyphCache.ReserveUvsFromNewLine` | src/text/glyph_cache.rs:308-317 | answer and new state are `NewLineSpec`'s |
| `GlyphAtlas.GlyphCache.ReserveUvs` | src/text/glyph_cache.rs:252-277 | answer and new state are `ReserveUvsSpec`'s, and the cache stays valid |
| `GlyphAtlas.GlyphCache.ReserveMiss` | src/text/glyph_cache.rs:263-276 | the miss path answers and updates as `MissSpec` |
| `GlyphAtlas.GlyphCache.ReserveAfterGaps` | src/text/glyph_cache.rs:267-276 | the new-line-then-eviction path answers and updates as its specification |
| `GlyphAtlas.GlyphCache.ExpireOneStep` | src/text/glyph_cache.rs:323-327 | every spot of every line is aged one step |
| `TextLayout.MustBreakCanBreak` | src/text/layout.rs:16-22 | every character that must break a line can break one; a space can break but need not, a newline must, a letter cannot |
| `TextLayout.GetLineStartX` | src/text/layout.rs:24-35 | Left starts at the base x; Right ends the line at base x + max width |
| `TextLayout.CenterIsCentered` | src/text/layout.rs:32 | a centred line leaves equal room on both sides up to the one pixel the truncating division drops, which goes to the side the line overflows towards |
| `TextLayout.Widths` | src/text/layout.rs:56-62 | one width per glyph; the first glyph's width is its metric width, with the advance from a previous glyph added when there is one |
| `TextLayout.WidthsStep` | src/text/layout.rs:56-64 | measuring one glyph moves the cursor by the advance and leaves the rest of the widths to be measured from that glyph and cursor |
| `TextLayout.FirstStop` | src/text/layout.rs:74-79 | the glyph the loop stops at, if any, lies in the run |
| `TextLayout.LastBreakBefore` | src/text/layout.rs:66-69 | the last break opportunity before `n` can break, and None means there is none |
| `TextLayout.ScanStepState` | src/text/layout.rs:54-93 | a glyph that does not stop the loop keeps the running totals in step with the sums of the widths |
| `TextLayout.ScanStopIsRef` | src/text/layout.rs:74-91 | the glyph that stops the loop gives the line break the reference definition states |
| `TextLayout.ScanIsRef` | src/text/layout.rs:54-98 | from any consistent loop state, the loop computes the reference line break |
| `TextLayout.LineLengthAndWidthIsRef` | src/text/layout.rs:38-99 | the line is all glyphs if nothing stops it; up to and including a line breaker, which is not printable; on overflow, up to the last break opportunity, with the width of the glyphs before it; on overflow with no opportunity, the glyphs before the overflowing one, or that glyph alone when it is the first |
| `TextLayout.ScanLengths` | src/text/layout.rs:54-96 | every line consumes at least one glyph of a non-empty run and no more than the run, only a line breaker is unprinted, and both subtraction variants agree on the lengths |
| `TextLayout.LineLengthBounds` | src/text/layout.rs:54-96 | `1 <= len <= glyphs.len()` for a non-empty run, `printable_len` is `len` or `len - 1` after a line breaker, and the code as written gives the same lengths |
| `TextLayout.NoBreakTakesAll` | src/text/layout.rs:53-95 | with no maximum width and no line breaker, `len = printable_len = glyphs.len()` and the width is the sum of the widths |
| `TextLayout.OverflowAfterBreakPopsTwice` | src/text/layout.rs:80-84 | "a bc" at 10 pixels per glyph and a maximum of 25 breaks after the space; the intended width is 10, the code as written gives 0 |
| `TextLayout.ScanNext` | src/text/layout.rs:54-93 | a glyph that does not stop the loop hands the same line break on to the next glyph |
| `TextLayout.MeasureGlyph` | src/text/layout.rs:56-62 | the width and cursor are those of the measuring step |
| `TextLayout.GetLineLengthAndWidth` | src/text/layout.rs:38-99 | the loop over the glyphs returns the line break of the corrected specification over the measured widths |
| `DummyFont.RoundUp` | src/text/fonts/dummy.rs:6 | `f32::round` of a value of at least one is the nearest integer, at least one, with halves rounded up |
| `DummyFont.GetSize` | src/text/fonts/dummy.rs:5-7 | the glyph size is a positive multiple of 8, at least 8 |
| `DummyFont.GetGlyphId` | src/text/fonts/dummy.rs:10-12 | the glyph id is the code point |
| `DummyFont.GetLineHeight` | src/text/fonts/dummy.rs:14-16 | the line height is four thirds of the glyph size, truncated |
| `DummyFont.GetAdvance` | src/text/fonts/dummy.rs:18-21 | the advance is always Some(size + 1), whatever the glyph pair |
| `DummyFont.GetMetric` | src/text/fonts/dummy.rs:23-32 | a size by size square at x = 0, y = (line height - size) / 2 |
| `DummyFont.RenderGlyph` | src/text/fonts/dummy.rs:34-41 | rendering always succeeds with the all-zero rectangle |
| `DummyFont.MetricFitsLine` | src/text/fonts/dummy.rs:14-32 | every glyph square lies inside its line, at least an eighth of the size below the top, and the advance clears it |
| `Font8x8.GetGlyphId` | src/text/fonts/font8x8.rs:30-32 | the glyph id is the code point |
| `Font8x8.Scale` | src/text/fonts/font8x8.rs:133-135 | `i * font_size / 10` truncated toward zero |
| `Font8x8.GetLineAdvance` | src/text/fonts/font8x8.rs:34-39 | lines advance by (0, font_size + 3) |
| `Font8x8.GetBitmap` | src/text/fonts/font8x8.rs:191-226 | Some exactly when the id's table entry exists and is not all zero, and then it is that entry |
| `Font8x8.FindBitmap` | src/text/fonts/font8x8.rs:191-226 | the loop looking for a non-zero row gives `GetBitmap`'s answer |
| `Font8x8.BitmapRanges` | src/text/fonts/font8x8.rs:191-215 | id 0 is the missing-glyph rectangle, and ids outside every listed range have no bitmap |
| `Font8x8.ChooseBitmap` | src/text/fonts/font8x8.rs:74-78 | `render_glyph` draws the glyph's bitmap, or the missing-glyph rectangle when there is none |
| `Font8x8.FirstColumn` | src/text/fonts/font8x8.rs:148-150 | the leftmost used column from `x` on, or None when no column there is used |
| `Font8x8.LastColumn` | src/text/fonts/font8x8.rs:151-153 | the rightmost used column below `n`, or None |
| `Font8x8.FirstRow` | src/text/fonts/font8x8.rs:166-168 | the first non-zero row, or None |
| `Font8x8.LastRow` | src/text/fonts/font8x8.rs:169 | the last non-zero row, or None |
| `Font8x8.RowHasBit` | src/text/fonts/font8x8.rs:147 | a row is non-zero exactly when one of its eight bits is set |
| `Font8x8.NonEmptyHasColumn` | src/text/fonts/font8x8.rs:141-157 | a bitmap that is not all zero has a used column, so the left/right scan finds one |
| `Font8x8.EmptyPixelsBounds` | src/text/fonts/font8x8.rs:141-173 | both scans succeed exactly for ids with a bitmap, and then left + right and top + bottom are between 0 and 7 |
| `Font8x8.SeenStep` | src/text/fonts/font8x8.rs:145-147 | one more pixel of the scan adds exactly its column when its bit is set |
| `Font8x8.SeenAll` | src/text/fonts/font8x8.rs:145-156 | after all 64 pixels the scan has seen exactly the used columns |
| `Font8x8.GetEmptyPixelsLeftRight` | src/text/fonts/font8x8.rs:141-158 | left is the lowest set bit over all rows and right is 7 minus the highest; None without a bitmap |
| `Font8x8.LeftRightStep` | src/text/fonts/font8x8.rs:147-153 | one pixel keeps `left` the least and `right` the greatest used column seen so far |
| `Font8x8.LeftRightEnd` | src/text/fonts/font8x8.rs:157 | after the last pixel the accumulators are the outermost used columns, and None exactly when there is none |
| `Font8x8.GetEmptyPixelsTopBottom` | src/text/fonts/font8x8.rs:160-173 | top is the index of the first non-zero row and bottom 7 minus the last; None without a bitmap |
| `Font8x8.RawMetricsBox` | src/text/fonts/font8x8.rs:83-100 | the space is (0, 8, 3, 0); any other glyph's box lies inside the cell, is 1 to 8 pixels wide and high when the glyph has a bitmap, and is the whole cell when it has none |
| `Font8x8.RawMetricsHoldInk` | src/text/fonts/font8x8.rs:89-96 | every set pixel of a glyph's bitmap lies inside its raw box |
| `Font8x8.Provider.constructor` | src/text/fonts/font8x8.rs:22-26 | nothing is memoised at first |
| `Font8x8.Provider.GetRawMetrics` | src/text/fonts/font8x8.rs:83-100 | the answer is the raw metric of the id whether memoised or not, the memo only ever holds raw metrics, and a new id other than the space is added to it |
| `Font8x8.Provider.GetAdvance` | src/text/fonts/font8x8.rs:41-47 | the advance is (scale(raw width of `from`) + 1, 0) |
| `Font8x8.Provider.RenderGlyph` | src/text/fonts/font8x8.rs:67-130 | the glyph cache reserves a spot of the raw box's size under the id; an error is passed on; a new spot gets the pixels of the glyph's bitmap (or the missing rectangle), an old one none |
| `Font8x8.Pixel` | src/text/fonts/font8x8.rs:116-122 | a pixel is 0xFF exactly when the bit at (x + x offset, y + y offset) is set, and 0 exactly when it is not |
| `Font8x8.GlyphPixels` | src/text/fonts/font8x8.rs:116-122 | the upload has one row per pixel of the box's height and one value per pixel of its width |
| `Font8x8.PixelAt` | src/text/fonts/font8x8.rs:116-122 | each uploaded pixel inside the cell is the pixel rule's value |
| `Font8x8.PixelsAreBits` | src/text/fonts/font8x8.rs:116-122 | inside the cell, an uploaded pixel is lit exactly when the bitmap's bit under it is set |
| `Font8x8.UploadIsTheInk` | src/text/fonts/font8x8.rs:89-122 | rendering a glyph with a bitmap uploads exactly its ink: the box holds every set bit and a pixel is lit iff its bit is set |
| `TextDummy.GetMetrics` | src/text_dummy.rs:192-194 | every glyph box starts at the origin, is as high as the font size and half as wide |
| `TextDummy.CharWidth` | src/text_dummy.rs:319-332 | a character with a metric is as wide as its box plus two pixels of spacing |
| `TextDummy.Template` | src/text_dummy.rs:125 | a character with a metric is drawn from its stored glyph template |
| `TextDummy.WidthsSnoc` | src/text_dummy.rs:291-292 | the width of a text grows by each appended character's width |
| `TextDummy.AllInTake` | src/text_dummy.rs:91-105 | every prefix of a text whose characters all have metrics is covered too |
| `TextDummy.MetricsForSpec` | src/text_dummy.rs:91-105 | the metrics map holds exactly the characters of the text, each with the call's template: zero position, the font-size box, the call's z and draw data index |
| `TextDummy.MetricsForCall` | src/text_dummy.rs:91-105 | the metrics map covers the text and every entry is the call's template |
| `TextDummy.MetricsForWidth` | src/text_dummy.rs:91-105 | with those metrics every character is half the font size plus two wide |
| `TextDummy.GetLineStartX` | src/text_dummy.rs:198-209 | Left starts at the base x, Right ends the line at the base x plus the maximum width, Center leaves equal room on both sides |
| `TextDummy.MoveForwardChars` | src/text_dummy.rs:211-217 | skipping n characters leaves the suffix after them, or nothing when the text is shorter |
| `TextDummy.MoveForwardTwice` | src/text_dummy.rs:211-217 | skipping a then b characters is skipping a + b |
| `TextDummy.AllInDrop` | src/text_dummy.rs:211-217 | what is left after skipping characters of a covered text is covered |
| `TextDummy.AllInSuffix` | src/text_dummy.rs:211-217 | every suffix of a covered text is covered |
| `TextDummy.WordFrom` | src/text_dummy.rs:278-316 | no word is returned only for a line it does not start under a maximum width; a word ends within the text, and ends before a non-whitespace character only when the width overflowed |
| `TextDummy.WordFromNoSpace` | src/text_dummy.rs:281-288 | a word holds no whitespace |
| `TextDummy.WordFromWidth` | src/text_dummy.rs:290-292 | a word that did not overflow is as wide as its characters |
| `TextDummy.WordWithoutLimit` | src/text_dummy.rs:272-317 | with no maximum width the word is the whole leading run of non-whitespace, as wide as its characters |
| `TextDummy.DummyTextRenderer.GetWordLength` | src/text_dummy.rs:272-317 | the scanning loop returns the word the recursive definition gives |
| `TextDummy.RunEnd` | src/text_dummy.rs:244-256 | the whitespace run ends within the text, at a newline or at a non-whitespace character |
| `TextDummy.RunEndSpec` | src/text_dummy.rs:244-256 | every character of the run is whitespace other than a newline |
| `TextDummy.DummyTextRenderer.WhitespaceRun` | src/text_dummy.rs:242-257 | the whitespace loop stops at the run's end and adds the width of the run |
| `TextDummy.AfterWord` | src/text_dummy.rs:236-262 | after a word the line stops within the text, or goes on with a shorter rest whose length adds up with the line length to the characters consumed |
| `TextDummy.LineTurn` | src/text_dummy.rs:228-263 | a turn that goes on consumes at least one character and accounts for every character it consumed |
| `TextDummy.LineTurnCases` | src/text_dummy.rs:228-234 | the line stops where a word does not fit on a line it does not start; otherwise the word is taken and the checks after it follow |
| `TextDummy.DummyTextRenderer.TakeTurn` | src/text_dummy.rs:228-263 | one turn of the loop computes the turn the definition gives |
| `TextDummy.DummyTextRenderer.FinishTurn` | src/text_dummy.rs:236-262 | the checks after a word compute the outcome the definition gives |
| `TextDummy.LineFrom` | src/text_dummy.rs:219-266 | the line length lies between what was consumed already and the whole text |
| `TextDummy.DummyTextRenderer.GetLineLengthAndWidth` | src/text_dummy.rs:219-266 | the loop computes the line length and width the definition gives |
| `TextDummy.FirstNewline` | src/text_dummy.rs:246-247 | the first newline's index, or the length when there is none; no character before it is a newline |
| `TextDummy.FirstNewlinePast` | src/text_dummy.rs:246-247 | past a prefix without a newline the first newline is found in the rest |
| `TextDummy.WordSkipsNewline` | src/text_dummy.rs:283-288 | a word never contains a newline |
| `TextDummy.RunSkipsNewline` | src/text_dummy.rs:244-256 | the whitespace run never contains a newline |
| `TextDummy.TurnStopsByNewline` | src/text_dummy.rs:244-248 | a stopping turn ends at most just past the first newline |
| `TextDummy.TurnSkipsNewline` | src/text_dummy.rs:228-263 | a turn that goes on moves past no newline |
| `TextDummy.NewlineEndsLine` | src/text_dummy.rs:219-266 | no line reaches past the first newline of the text |
| `TextDummy.NewlineCounted` | src/text_dummy.rs:244-248 | a line that ends in a newline ends at the first newline of the text and counts it, so its length is that newline's index plus one |
| `TextDummy.WidthsAppend` | src/text_dummy.rs:238-254 | the widths of characters added one by one sum over a concatenation |
| `TextDummy.AfterWordWidth` | src/text_dummy.rs:236-262 | after a word, the width a turn adds is that of the whitespace it moved past, the closing newline excepted, unless the line overflowed; a turn that goes on has not overflowed and leaves the text after what it moved past |
| `TextDummy.TurnWidth` | src/text_dummy.rs:228-263 | a whole turn adds the widths of the word and of the whitespace it moved past, the closing newline excepted, unless the line overflowed; a turn that goes on moves forward |
| `TextDummy.LineFromWidth` | src/text_dummy.rs:219-266 | unless the line overflowed, the width found is the width already on the line plus the widths of the characters the line takes, its closing newline excepted |
| `TextDummy.LineWidth` | src/text_dummy.rs:219-266 | unless the line overflowed, its width is that of its characters, a closing newline excepted, and it stays within the maximum width |
| `TextDummy.TurnWithoutLimit` | src/text_dummy.rs:228-263 | with no maximum width a turn stops only just past the first newline or at the end of the text |
| `TextDummy.LineEndWithoutLimit` | src/text_dummy.rs:219-266 | with no maximum width the line runs to just past the first newline, or to the end of a text without one |
| `TextDummy.LineWithoutLimit` | src/text_dummy.rs:219-266 | with no maximum width the line is everything up to and including the first newline, and its width is that of the characters before it |
| `TextDummy.LineQueue` | src/text_dummy.rs:120-131 | one glyph per character of the line |
| `TextDummy.LineQueueShape` | src/text_dummy.rs:120-131 | the k-th glyph of a line is the call's template at x + k times the character width, on the line's y |
| `TextDummy.Queued` | src/text_dummy.rs:119-124 | of a line of n characters only the first n - 1 get a glyph |
| `TextDummy.DummyTextRenderer.QueueLine` | src/text_dummy.rs:118-131 | the inner loop appends the glyphs of the queued characters of the line and nothing else |
| `TextDummy.NextLine` | src/text_dummy.rs:113-133 | a line is a prefix of the text and the text left a suffix after it; once the line length is within the text the text left is shorter |
| `TextDummy.TextQueue` | src/text_dummy.rs:110-134 | the whole text queues no more glyphs than it has characters |
| `TextDummy.LineThenRest` | src/text_dummy.rs:110-134 | a line and the text after it queue no more glyphs than their characters |
| `TextDummy.TextQueueStep` | src/text_dummy.rs:112-134 | queuing one line, then the rest one line height lower, is queuing the whole text |
| `TextDummy.LineQueueOfCall` | src/text_dummy.rs:125-128 | every glyph of a line carries the call's size, z and draw data index |
| `TextDummy.TextQueueShape` | src/text_dummy.rs:110-134 | every glyph a call queues carries the call's size, z and draw data index |
| `TextDummy.DrawTextStalls` | src/text_dummy.rs:112-132 | as written, a one-character line wider than the maximum width gets length zero, and skipping zero characters leaves the text as it was |
| `TextDummy.LinesProgress` | src/text_dummy.rs:112-132 | taking at least one character per line always shortens the text left |
| `TextDummy.LastCharacterNotQueued` | src/text_dummy.rs:120-124 | the two-character text "ab" with no maximum width queues only one glyph |
| `TextDummy.DummyTextRenderer.constructor` | src/text_dummy.rs:42-56 | a new renderer has empty queues and a DPI factor of one |
| `TextDummy.DummyTextRenderer.UpdateDpiFactor` | src/text_dummy.rs:62-64 | the DPI factor is replaced |
| `TextDummy.DummyTextRenderer.CollectMetrics` | src/text_dummy.rs:91-105 | the loop builds the metrics map the definition gives |
| `TextDummy.DummyTextRenderer.DrawText` | src/text_dummy.rs:78-135 | one draw data entry with the call's clip area and colour is appended, and the glyphs of the text are appended line by line |
| `TextDummy.DummyTextRenderer.QueueText` | src/text_dummy.rs:110-134 | the line loop appends the queue of the whole text |
| `TextDummy.DummyTextRenderer.QueueNextLine` | src/text_dummy.rs:112-133 | one turn of the line loop leaves a shorter covered text, and what it queued plus the queue of the rest is the queue of the text |
| `TextDummy.ComposedShape` | src/text_dummy.rs:139-189 | every quad is untextured; a glyph gives one quad with a clip area and two without |
| `TextDummy.IndexedAfterCall` | src/text_dummy.rs:88-89 | glyphs of a call whose draw data entry exists keep every glyph's draw data index in range |
| `TextDummy.QueueIndexed` | src/text_dummy.rs:88-134 | the glyphs a call queues refer to an existing draw data entry |
| `TextDummy.DummyTextRenderer.ComposeDrawCall` | src/text_dummy.rs:139-189 | the quads of every queued glyph are returned in order and the glyph queue is emptied |
| `TextQueue.Trunc` | src/text/mod.rs:91-92 | `as i32` truncates toward zero: the result is within one of the value, on the value's side of zero |
| `TextQueue.MemoisedSplit` | src/text/mod.rs:103-113 | a text whose characters all have their memoised metric splits into two such texts |
| `TextQueue.Placed` | src/text/mod.rs:151 | the metric's rectangle moved by the cursor keeps its size |
| `TextQueue.LineGlyphsUnfold` | src/text/mod.rs:140-165 | a line's glyphs are its first character's glyph at the advanced cursor, then the rest of the line's glyphs |
| `TextQueue.QueueLineStep` | src/text/mod.rs:140-165 | pushing one character's glyph leaves the rest of the line's glyphs still to come |
| `TextQueue.TextGlyphsUnfold` | src/text/mod.rs:126-171 | a text's glyphs are the first line's, started at the aligned x, then the rest's, one line height lower |
| `TextQueue.QueueTextStep` | src/text/mod.rs:126-171 | queuing one line leaves the glyphs of the lines after it still to come |
| `TextQueue.LineGlyphsShape` | src/text/mod.rs:138-165 | a line gives one glyph per character, in order, with the character's glyph id, the call's draw data entry and the line's y |
| `TextQueue.OneLineUp` | src/text/mod.rs:167-170 | a glyph on some line below the next line's y is on a line below this line's y |
| `TextQueue.OnLinesAppend` | src/text/mod.rs:126-171 | the first line followed by the later lines one line height lower lie on the lines of the whole text |
| `TextQueue.TextGlyphsShape` | src/text/mod.rs:122-171 | a text gives one glyph per character, in order, each with its glyph id and the call's entry, at the metric's y plus a whole number of line heights |
| `TextQueue.TextGlyphsIndexed` | src/text/mod.rs:158-162 | every glyph of the call refers to the draw data entry the call pushed |
| `TextQueue.BoxOfHolds` | src/text/mod.rs:115-157 | the bounding box exists exactly when a glyph was queued, and it holds every glyph |
| `TextQueue.BoxOfTouches` | src/text/mod.rs:152-157 | each side of the bounding box touches some glyph: the box is the smallest that holds them |
| `TextQueue.BoxOfAppend` | src/text/mod.rs:152-157 | each glyph extends the box by its own corners |
| `TextQueue.ClipShrinks` | src/text/mod.rs:173-180 | clipping neither creates a box nor widens one: the clipped box lies within both the box and the clip area |
| `TextQueue.ComposedShape` | src/text/mod.rs:199-253 | no more quads than glyphs, one per glyph when the font renders every one, and a rendered glyph's quad is its screen and texture rectangles padded by half a pixel with its entry's colour, depth and clip area |
| `TextQueue.PadHalfPixel` | src/text/mod.rs:218-235 | padding grows a rectangle by half a pixel on every side, and two padded rectangles differ by whole pixels, so their fractional parts agree |
| `TextQueue.DrawTextBoxIffNonEmpty` | src/text/mod.rs:86-190 | the clipped box is present exactly when the text is not empty |
| `TextQueue.TextRenderer.constructor` | src/text/mod.rs:44-55 | a new renderer has empty queues and a DPI factor of one |
| `TextQueue.TextRenderer.SetDpiFactor` | src/text/mod.rs:58-60 | the DPI factor is replaced |
| `TextQueue.TextRenderer.CollectMetrics` | src/text/mod.rs:103-113 | the memo holds exactly the text's characters, each with the font's glyph id and metric, and the font is queried once per distinct character |
| `TextQueue.TextRenderer.PlaceGlyph` | src/text/mod.rs:141-162 | the cursor moves by the advance from the previous character, and the glyph is the metric at the moved cursor |
| `TextQueue.TextRenderer.QueueLine` | src/text/mod.rs:138-165 | the inner loop appends the line's glyphs |
| `TextQueue.TextRenderer.QueueNextLine` | src/text/mod.rs:127-170 | one pass measures a line of at least one character and appends its glyphs, starting from the aligned x |
| `TextQueue.TextRenderer.QueueText` | src/text/mod.rs:124-171 | the line loop appends the glyphs of the whole text |
| `TextQueue.TextRenderer.Bounds` | src/text/mod.rs:115-157 | the loop's minimum and maximum corners are the bounding box of the queued glyphs |
| `TextQueue.TextRenderer.ClipBox` | src/text/mod.rs:173-190 | the answer is the box clipped to the clip area, or none without a box |
| `TextQueue.TextRenderer.DrawText` | src/text/mod.rs:76-191 | an empty text changes nothing and answers none; otherwise one draw data entry in physical pixels is pushed, the laid-out glyphs are appended and their clipped bounding box is returned |
| `TextQueue.TextRenderer.ComposeDrawCall` | src/text/mod.rs:195-257 | the quads of the rendered glyphs are returned in order, both queues are emptied and the glyph cache is aged once |
| `GlVersion.ParseU8` | src/gl_version.rs:88 | a parsed `u8` comes from a non-empty string; without a leading '+' the string is all digits and spells the value |
| `GlVersion.IndexOf` | src/gl_version.rs:86-87 | the split finds the first '.', or the end of the string when there is none |
| `GlVersion.DigitRun` | src/gl_version.rs:91-94 | the minor version's digits run up to the first non-digit or the end |
| `GlVersion.ReadNumbers` | src/gl_version.rs:86-97 | numbers are read only when there is a '.', and the major version is the text before the first '.' |
| `GlVersion.ParseVersion` | src/gl_version.rs:68-98 | an ES prefix on a string shorter than 16 characters gives no version; the ES flag is set exactly for the ES prefix; a version is found only when the string holds a '.' |
| `GlVersion.GetVersion` | src/gl_version.rs:45-63 | the version is unavailable exactly when parsing fails, and then carries the string; otherwise the API is ES exactly for the ES prefix and the numbers are the parsed ones |
| `GlVersion.Decimal` | src/gl_version.rs:88 | the decimal spelling of a number is a non-empty run of digits |
| `GlVersion.DecimalRoundTrip` | src/gl_version.rs:88 | reading a spelled number gives the number back |
| `GlVersion.ParseU8RoundTrip` | src/gl_version.rs:88 | `u8::from_str_radix` reads back every `u8` spelled in decimal |
| `GlVersion.DesktopRoundTrip` | src/gl_version.rs:68-98 | "<major>.<minor>" followed by anything not starting with a digit reads back as that desktop version |
| `GlVersion.EsRoundTrip` | src/gl_version.rs:68-98 | "OpenGL ES-", a three-character profile, then "<major>.<minor>" and a non-digit tail read back as that ES version |
| `GlVersion.ReadsBack` | src/gl_version.rs:86-97 | the text after the prefix gives back the major and minor version it spells |
| `GlVersion.MajorReadsBack` | src/gl_version.rs:86-88 | the major version is the spelled number before the first '.' |
| `GlVersion.MinorReadsBack` | src/gl_version.rs:90-95 | the minor version is the spelled number up to the first non-digit |
| `GlVersion.IndexPastDigits` | src/gl_version.rs:86-87 | a run of digits holds no '.', so the search goes past it |
| `GlVersion.RunOfDigits` | src/gl_version.rs:91-93 | digits followed by a non-digit end the minor version at the non-digit |
| `GlVersion.ReadsNvidiaString` | src/gl_version.rs:90-97 | the release number and vendor text of "4.6.0 NVIDIA" are ignored: desktop 4.6 |
| `GlVersion.ReadsEsCommonProfile` | src/gl_version.rs:70-97 | "OpenGL ES-CM 1.1" is ES 1.1 |
| `GlVersion.ShortEsStringIsUnavailable` | src/gl_version.rs:70-77 | a 15-character ES string is unavailable |
| `GlVersion.NoDotIsUnavailable` | src/gl_version.rs:90 | a string without a '.' is unavailable |
| `GlVersion.NoLeadingNumber` | src/gl_version.rs:87-88 | text starting with neither a digit nor '+' has no major version |
| `GlVersion.LaterEsIsUnavailable` | src/gl_version.rs:70-88 | as written, every "OpenGL ES <major>.<minor>" string of OpenGL ES 2.0 and later is unavailable |
| `GlVersion.ParseVersionIntended` | src/gl_version.rs:68-98 | corrected parsing agrees with the code on every string without the later ES prefix, and reads a string with it as ES |
| `GlVersion.LaterEsRoundTrip` | src/gl_version.rs:68-98 | corrected, "OpenGL ES <major>.<minor>" and a non-digit tail read back as that ES version |
| `ShaderPairs.GetShader` | src/shaders.rs:88-93 | the vertex source for the vertex stage, the fragment source for the fragment stage |
| `ShaderPairs.Default` | src/shaders.rs:96-112 | the modern pair serves GLSL 3.30 and ES 3.00, the legacy pair GLSL 1.10 and ES 1.00 |
| `ShaderPairs.PairFor` | src/shaders.rs:125-143 | desktop legacy reads the 1.10 pair, desktop modern the 3.30 pair, ES legacy the 1.00 pair, ES modern the 3.00 pair |
| `ShaderPairs.VersionLine` | src/shaders.rs:128-139 | every expected version line is a `#version` directive |
| `ShaderPairs.Header` | src/shaders.rs:161-164 | the preamble is the version line and a newline, followed on OpenGL ES by the default float precision |
| `ShaderPairs.CreateString` | src/shaders.rs:124-167 | a source that declares a version is used as it is; any other gets the preamble in front |
| `ShaderPairs.CreateVertString` | src/shaders.rs:116-118 | the vertex source of the selected pair, with the preamble when it declares no version |
| `ShaderPairs.CreateFragString` | src/shaders.rs:120-122 | the fragment source of the selected pair, with the preamble when it declares no version |
| `ShaderPairs.PrefixContained` | src/shaders.rs:145 | a source starting with a string contains it |
| `ShaderPairs.CreatedHasVersion` | src/shaders.rs:145-166 | every created source declares a version |
| `ShaderPairs.CreateIdempotent` | src/shaders.rs:145-166 | a created source, used as every source, comes back unchanged for any API, tier and stage |
| `ShaderPairs.HeaderThenSource` | src/shaders.rs:160-166 | for a version-less source the source follows the preamble exactly, and the preamble holds the precision line exactly on OpenGL ES |
| `ShaderPairs.NoPrecisionIn` | src/shaders.rs:162-164 | the desktop preambles do not hold the precision line |
| `ShaderLines.Default` | src/shaders/mod.rs:21-36 | the bundled legacy sources are the 1.10 ones and the modern sources the 3.30 ones |
| `ShaderLines.Lines` | src/shaders/mod.rs:65 | no line holds a "\n" |
| `ShaderLines.Joined` | src/shaders/mod.rs:67-71 | joining at least one line ends in "\n" |
| `ShaderLines.ReplaceVersion` | src/shaders/mod.rs:75-85 | a `#version` line becomes "#version 100" on the legacy tier and "#version 300 es" with the default precision otherwise; other lines are kept |
| `ShaderLines.ReplaceAll` | src/shaders/mod.rs:66 | every line is replaced on its own, and the number of lines is kept |
| `ShaderLines.CreateString` | src/shaders/mod.rs:53-73 | the legacy source exactly on the legacy tier; unchanged on desktop OpenGL, its lines replaced and each ended by "\n" on OpenGL ES |
| `ShaderLines.CreateVertString` | src/shaders/mod.rs:39-41 | on desktop OpenGL, the 1.10 or 3.30 vertex source as it is; on OpenGL ES, that source with its `#version` lines rewritten for ES, joined with a final "\n" |
| `ShaderLines.CreateFragString` | src/shaders/mod.rs:43-50 | on desktop OpenGL, the 1.10 or 3.30 fragment source as it is; on OpenGL ES, that source with its `#version` lines rewritten for ES, joined with a final "\n" |
| `ShaderLines.JoinedCons` | src/shaders/mod.rs:67-71 | joining a first line and the rest is that line, a "\n" and the rest joined |
| `ShaderLines.JoinedLines` | src/shaders/mod.rs:63-71 | splitting a text without "\r" into lines and joining them gives the text back, with a final "\n" added when it had none |
| `ShaderLines.TerminatedAfterLine` | src/shaders/mod.rs:65-70 | terminating a text is its first line, a "\n", then the rest terminated |
| `ShaderLines.LinesJoined` | src/shaders/mod.rs:65-70 | splitting joined lines without "\n" and not ending in "\r" gives the lines back |
| `ShaderLines.IndexAfterLine` | src/shaders/mod.rs:65 | the first "\n" after a line without one is the one that ends it |
| `ShaderLines.EsKeepsVersionless` | src/shaders/mod.rs:63-71 | on OpenGL ES a source without "\r" and without a `#version` line is kept, only terminated by "\n" |
| `ShaderLines.EsLegacyLines` | src/shaders/mod.rs:63-85 | on OpenGL ES 2.0 the lines made are the source's lines with every `#version` line replaced, so every version directive left is "#version 100" |
| `ShaderLines.LineHasNoCr` | src/shaders/mod.rs:65 | the lines of a text without "\r" hold none |
| `ShaderLines.EsModernHeader` | src/shaders/mod.rs:63-85 | on OpenGL ES 3.0 a source whose first line is a `#version` line starts with "#version 300 es" and the default precision |
| `Renderer.QuadVertices` | src/renderer.rs:215-218 | a quad is 30 floats |
| `Renderer.QuadCorners` | src/renderer.rs:215-218 | each of the six vertices sits on its corner with the quad's z and the matching corner of the texture rectangle |
| `Renderer.TriangleCorners` | src/renderer.rs:215-218 | the three vertices of either triangle sit on their corners |
| `Renderer.TrianglesTileQuad` | src/renderer.rs:215-218 | the two triangles together cover the four corners and share exactly the diagonal from (x0, y0) to (x1, y1) |
| `Renderer.WriteSlot` | src/renderer.rs:219-225 | writing a slot keeps the buffers' length |
| `Renderer.WriteSlotSpec` | src/renderer.rs:219-225 | a written slot reads back as the quad and nothing outside the slot changes |
| `Renderer.SlotInsideTexture` | src/renderer.rs:214-222 | every slot below `MAX_QUADS` lies inside its own texture's buffer |
| `Renderer.RenderOneSpec` | src/renderer.rs:241-266 | an empty texture uploads nothing; a non-empty one uploads 120 bytes per quad and draws six vertices per quad; the allocated size never shrinks, holds the upload afterwards, and the storage is reused only for an upload smaller than it |
| `Renderer.AllocatedAfter` | src/renderer.rs:254-262 | one allocated size per texture |
| `Renderer.RenderDrawsEveryQuad` | src/renderer.rs:241-267 | `render` draws six vertices for every queued quad of every texture |
| `Renderer.VerticesAppend` | src/renderer.rs:264 | the vertices drawn by two runs of uploads add up |
| `Renderer.GlErrorToString` | src/renderer.rs:282-295 | each listed GL error code gets its name, every other code "unknown error" |
| `Renderer.ErrorNamesDistinct` | src/renderer.rs:282-295 | different listed codes get different names, none of them "unknown error" |
| `Renderer.CopyAsWritten` | src/renderer.rs:219-224 | as written, the copy moves 120 floats, the quad and the 90 floats after it in memory, keeping the buffers' length |
| `Renderer.AsWrittenOverwritesGlyphQuads` | src/renderer.rs:219-224 | as written, the last quad of the UI texture's buffer overwrites the first three quads of the glyph cache texture's buffer |
| `Renderer.AsWrittenRunsPastTheEnd` | src/renderer.rs:219-224 | as written, each of the last three quads of the glyph cache texture's buffer is copied past the end of the vertex buffers |
| `Renderer.QuadBuffers.constructor` | src/renderer.rs:21-30 | no quads, zeroed buffers and no allocated storage |
| `Renderer.QuadBuffers.DrawQuad` | src/renderer.rs:206-230 | below capacity the quad goes into the next slot of its texture and only that texture's count grows, by one; at capacity nothing changes |
| `Renderer.QuadBuffers.CopyQuad` | src/renderer.rs:219-224 | the copy writes the quad's 30 floats into the slot and nothing else |
| `Renderer.QuadBuffers.Render` | src/renderer.rs:241-267 | the uploads are those of every non-empty texture in order, the allocated sizes are updated, and every count is reset to zero |
| `RendererMod.DrawsUpTo` | src/renderer/mod.rs:236-254 | one draw per texture |
| `RendererMod.DrawsEveryTexture` | src/renderer/mod.rs:236-254 | every texture, empty or not, is uploaded with 120 bytes per quad and drawn with six vertices per quad, in texture order |
| `RendererMod.Buffers.constructor` | src/renderer/mod.rs:24-32 | no quads and zeroed buffers |
| `RendererMod.Buffers.DrawQuad` | src/renderer/mod.rs:197-225 | below capacity the quad goes into the next slot of its texture and only that texture's count grows, by one; at capacity nothing changes |
| `RendererMod.Buffers.CopyQuad` | src/renderer/mod.rs:214-219 | the copy writes the quad's 30 floats into the slot and nothing else |
| `RendererMod.Buffers.Render` | src/renderer/mod.rs:236-254 | every texture is drawn in order and every count is reset to zero |
| `Images.SolidPixels` | src/image.rs:94-97 | the bytes of a solid image are the pixel count times the colour's length |
| `Images.EveryPixelIsTheColor` | src/image.rs:94-97 | every pixel of a solid image is a copy of the colour |
| `Images.FromColor` | src/image.rs:93-110 | width times height copies of the colour, in SRGB for three channels and SRGB with alpha otherwise, of unsigned bytes, with the given width and height |
| `Images.WithFormat` | src/image.rs:124-127 | only the format changes |
| `Images.WithFormatLastWins` | src/image.rs:124-127 | relabelling twice keeps the last format, and relabelling with the image's own format changes nothing |
| `RectShape.Left` | src/rect.rs:31-36 | the left edge is the first field of either representation |
| `RectShape.Top` | src/rect.rs:39-44 | the top edge is the second field of either representation |
| `RectShape.Right` | src/rect.rs:47-52 | the right edge is the left edge moved by the width |
| `RectShape.Bottom` | src/rect.rs:55-60 | the bottom edge is the top edge moved by the height |
| `RectShape.Width` | src/rect.rs:63-68 | the stored width, or the distance between the corners |
| `RectShape.Height` | src/rect.rs:71-76 | the stored height, or the distance between the corners |
| `RectShape.CoordsOf` | src/rect.rs:20-22 | the corners are the width and height apart, and are the stored ones for `Coords` |
| `RectShape.DimsOf` | src/rect.rs:26-28 | corner plus dimensions reach the right and bottom edges, and are the stored ones for `Dims` |
| `RectShape.Dimensions` | src/rect.rs:79-84 | computed directly from either variant, the dimensions agree with the width and height accessors |
| `RectShape.SetCoords` | src/rect.rs:88-90 | afterwards the corners read back as given |
| `RectShape.SetDims` | src/rect.rs:94-96 | afterwards the corner and dimensions read back as given |
| `RectShape.RepresentationsAgree` | src/rect.rs:17-84 | re-reading a rectangle through the other representation changes none of its edges |
| `Types.IntoCorners` | src/types.rs:35-37 | the top-left corner is the rectangle's position and the bottom-right is its width and height further |
| `Types.RectFromTuple` | src/types.rs:40-49 | the tuple's fields become x, y, width and height in that order |
| `Types.RectFromIntTuple` | src/types.rs:51-60 | each integer becomes the equal real, in the same order |
| `Types.RectFromRectPx` | src/types.rs:62-71 | each field keeps its value |
| `Types.RectPxFromTuple` | src/types.rs:86-95 | the tuple's fields become x, y, width and height in that order |
| `Types.TupleFromRectPx` | src/types.rs:97-101 | x, y, width and height become the tuple in that order |
| `Types.RectPxRoundTrip` | src/types.rs:86-101 | `RectPx` to tuple and back is the identity |
| `Types.TupleRoundTrip` | src/types.rs:86-101 | tuple to `RectPx` and back is the identity |
| `Types.IntTupleRoutesAgree` | src/types.rs:51-95 | an integer tuple becomes the same `Rect` directly and through `RectPx` |
| `RustInt.Div` | src/text/layout.rs:32 | Rust's signed division truncates toward zero: the remainder has the dividend's sign and is smaller than the divisor in magnitude |
| `UiLayout.Width` | src/ui/layout.rs:65-67 | the right side is the left side moved by the width |
| `UiLayout.Height` | src/ui/layout.rs:70-72 | the bottom side is the top side moved by the height |
| `UiLayout.NewLayout` | src/ui/layout.rs:106-136 | a 100 by 16 rectangle at (8, 8), no anchoring, centred text, padding 8 |
| `UiLayout.WithRelative` | src/ui/layout.rs:172-180 | only the relative rectangle is replaced |
| `UiLayout.WithAnchors` | src/ui/layout.rs:190-198 | only the anchors are replaced |
| `UiLayout.WithPadding` | src/ui/layout.rs:203-206 | only the padding is replaced |
| `UiLayout.WithAlignment` | src/ui/layout.rs:229-232 | only the alignment is replaced |
| `UiLayout.MoveRelative` | src/ui/layout.rs:211-216 | each side of the relative rectangle moves by its delta and nothing else changes |
| `UiLayout.MoveAnchors` | src/ui/layout.rs:221-226 | each anchor moves by its delta and nothing else changes |
| `UiLayout.MoveRelativeUndone` | src/ui/layout.rs:211-216 | moving by some deltas and then by their negations gives the layout back |
| `UiLayout.ShiftedSpec` | src/ui/layout.rs:142-162 | the next layout keeps the size, anchors, alignment and padding, and starts where this one ends plus the padding (right, down) or ends where this one starts minus the padding (left, up) |
| `UiLayout.ShiftedBack` | src/ui/layout.rs:142-162 | shifting back the opposite way returns to the original layout |
| `UiLayout.Absolute` | src/ui/layout.rs:234-243 | each side is its relative position plus the window dimension along its axis times its anchor |
| `UiLayout.AbsoluteAnchoring` | src/ui/layout.rs:234-243 | an unanchored layout sits at its relative rectangle, and equal opposite anchors keep the size whatever the window |
| `UiLayout.LayoutController.constructor` | src/ui/layout.rs:12-16 | the first layout is a 100 by 16 rectangle at (16, 16), going down |
| `UiLayout.LayoutController.DefineLayout` | src/ui/layout.rs:27-30 | the stored layout is replaced and the direction kept |
| `UiLayout.LayoutController.DefineDirection` | src/ui/layout.rs:34-37 | the direction is replaced and the layout kept |
| `UiLayout.LayoutController.ForNextElement` | src/ui/layout.rs:138-165 | the element gets the stored layout, and the stored one moves one element plus padding on in the stored direction |
| `UiLayout.ColumnGoingDown` | src/ui/layout.rs:158-161 | going down, the n-th element is n element heights plus paddings below the first, with the same left and right sides |
| `UiOld.IsPointInside` | src/ui.rs:43-48 | a point is inside exactly when it lies in the element's box grown by six pixels on every side, left and top edges included, right and bottom excluded |
| `UiOld.NewElement` | src/ui.rs:117-130 | the new element is 88 by 16 at x 30, its id its position, at y 30 when first and 44 below the last element otherwise |
| `UiOld.NewElementExtendsColumn` | src/ui.rs:117-130 | adding the new element keeps the frame's elements a column: element i has id i and sits 44 times i below y 30 |
| `UiOld.ColumnDoesNotOverlap` | src/ui.rs:117-130 | elements of the column never overlap: each one ends above the next |
| `UiOld.CanBePressed` | src/ui.rs:100-101 | a button may take the press exactly when nobody holds it or the button itself does |
| `UiOld.ButtonStateSpec` | src/ui.rs:103-108 | a button is drawn pressed exactly when the mouse is down over it and it may take the press, and only then takes the press; the press never moves away from another button; a button is drawn normal exactly when not hovered |
| `UiOld.ClickIsARelease` | src/ui.rs:99-114 | a click comes only from a mouse released over the button in this frame, and the clicked button is drawn hovered, not pressed |
| `UiOld.UiState.constructor` | src/ui.rs:9-21 | no elements, the mouse at the origin and released, nothing pressed, nothing hovered |
| `UiOld.UiState.Update` | src/ui.rs:72-84 | the press is let go if the mouse was up, the elements are forgotten, the new mouse is stored, and the frame's hovering flag is reported and reset |
| `UiOld.UiState.Label` | src/ui.rs:86-92 | one panel is appended to the column and nothing else changes |
| `UiOld.UiState.Button` | src/ui.rs:94-115 | one button is appended, drawn and taking the press as the button rules say; hovering records it; the result is whether the mouse was released over it while it could take the press |
| `UiMod.DefaultDimensions` | src/ui/mod.rs:94-116 | without registered dimensions an element is 88 by 16 at x 30, at y 30 when first and 44 below the last element otherwise, and not anchored |
| `UiMod.DefaultColumn` | src/ui/mod.rs:94-98 | default elements placed one after another form a column 44 apart, each 88 by 16 |
| `UiMod.NinePatchFits` | src/ui/mod.rs:134-147 | the nine tiles of an element's frame meet edge to edge, the middle tile is the element grown by the padding, and the other rows and columns are one tile wide |
| `UiMod.NinePatchTexture` | src/ui/mod.rs:130-146 | the texture tiles meet edge to edge and stay inside the element kind's cell of the spritesheet |
| `UiMod.DrawElement` | src/ui/mod.rs:123-149 | an element without background draws no quad; any other draws the nine tiles of its frame, row by row |
| `UiMod.UiState.constructor` | src/ui/mod.rs:17-30 | no dimensions, no elements, no last element, the mouse at the origin and up, nothing pressed, no hovering |
| `UiMod.UiState.InsertElement` | src/ui/mod.rs:44-47 | the element becomes the last one and replaces whatever was stored under its hash; nothing else changes |
| `UiMod.UiState.DefineElementDimensions` | src/ui/mod.rs:64-69 | the dimensions are registered under the label's hash; nothing else changes |
| `UiMod.UiState.Update` | src/ui/mod.rs:73-91 | the press is let go if the mouse was up, the frame's elements are forgotten, the new mouse is stored, and the hovering reported is always false since the flag is reset before it is read |
| `UiMod.UiState.NewElement` | src/ui/mod.rs:93-121 | the element keeps its identifier and kind and takes the dimensions registered for its hash if any, the default column dimensions otherwise |
| `UiElement.IsPointInside` | src/ui/element.rs:32-43 | a point is inside exactly when it lies in the element's rectangle grown by six pixels on every side, left and top edges included, right and bottom excluded |
| `UiElement.InsideRectIsInside` | src/ui/element.rs:32-43 | every point of the rectangle itself is inside the element |
| `UiElement.UiState.Label` | src/ui/element.rs:53-59 | an element without background is stored under the label's hash and becomes the last element; nothing else changes |
| `UiElement.UiState.ButtonMeta` | src/ui/element.rs:61-84 | the button is stored drawn as the button rules say; the press and the focus follow those rules; hovering records it; the result is a click exactly when the mouse was just released over it while it could take the press |
| `UiElement.CanBePressed` | src/ui/element.rs:68-69 | an element may take the press exactly when nobody holds it or it does itself |
| `UiElement.ButtonOutcomeSpec` | src/ui/element.rs:71-77 | a button is drawn pressed exactly when the mouse is down over it and it may take the press, and then takes both the press and the focus; otherwise neither moves; it is drawn normal exactly when not hovered; a press held by another element stays there |
| `UiElement.InsertCharSpec` | src/ui/element.rs:128-139 | typing keeps the cursor at the end of the text, so a backspace never takes it below zero, and a printable character followed by a backspace gives the entry back |
| `UiElement.InputStrings.constructor` | src/ui/element.rs:123-126 | no text field is known |
| `UiElement.InputStrings.InsertInput` | src/ui/element.rs:128-139 | a typed character edits the focused field's entry, when the field is known, and nothing else; every cursor stays at the end of its text |
| `UiElement.InputStrings.Input` | src/ui/element.rs:143-173 | a field seen for the first time starts with the default text and the cursor at its end, a known field keeps its text; a click inside it takes the focus; the field is stored as the last element; the result is its text |
| `UiElementMod.Button` | src/ui/element/mod.rs:91-95 | a button clicks, takes the press and the focus, and is stored exactly as the button rules say; it becomes the last element, and the mouse is kept |
| `UiElementMod.ButtonImage` | src/ui/element/mod.rs:101-118 | the same button rules, last element and kept mouse, and the one quad drawn covers the button's rectangle with the caller's texture coordinates, color, depth and texture |
| `UiInput.Text` | src/ui/element/input.rs:15-17 | the text is the text before the cursor followed by the text after it, and splits back into the two |
| `UiInput.MoveRight` | src/ui/element/input.rs:32-43 | moving right by up to n moves as many characters as there are after the cursor, at most n, from after the cursor to before it, and counts them in the cursor index |
| `UiInput.MoveLeft` | src/ui/element/input.rs:44-55 | moving left by up to n moves as many characters as there are before the cursor, at most n, from before the cursor to after it, and takes them off the cursor index |
| `UiInput.MovedKeepsText` | src/ui/element/input.rs:24-60 | moving the cursor never changes the field's text and keeps the cursor index equal to the number of characters before the cursor |
| `UiInput.MoveRightThenLeft` | src/ui/element/input.rs:32-55 | moving right by n, when there are that many characters after the cursor, and back left by n gives the field back |
| `UiInput.InsertChar` | src/ui/element/input.rs:62-71 | typing never touches the text after the cursor |
| `UiInput.InsertCharSpec` | src/ui/element/input.rs:62-71 | typing keeps the cursor index equal to the number of characters before the cursor, so it never goes below zero; a printable character lands just before the cursor; a printable character followed by a backspace changes nothing |
| `UiInput.InsertAllAppend` | src/ui/element/input.rs:80-87 | typing a string in two parts is typing it at once |
| `UiInput.InsertAllSpec` | src/ui/element/input.rs:80-87 | typing a string never touches the text after the cursor and keeps the cursor index at the split |
| `UiInput.NewField` | src/ui/element/input.rs:97-107 | a new field's text is the default text, with the cursor at its end |
| `UiInput.TextFields.constructor` | src/ui/element/input.rs:20-22 | no field is known |
| `UiInput.TextFields.MoveCursor` | src/ui/element/input.rs:24-60 | a zero modifier, no focus or an unknown focused field changes nothing; otherwise only the focused field moves its cursor, right for a positive modifier and left for a negative one, as far as its text allows |
| `UiInput.TextFields.InsertInput` | src/ui/element/input.rs:73-78 | a typed character edits the focused field, when it is known, and nothing else |
| `UiInput.TextFields.InsertInputStr` | src/ui/element/input.rs:80-87 | each character of the string is typed into the focused field in order, when it is known, and nothing else changes |
| `UiInput.TextFields.Input` | src/ui/element/input.rs:91-129 | a field seen for the first time starts with the default text and the cursor at its end, a known field is kept; a click inside it takes the focus; the field is stored as the last element, an input field with its identifier and rectangle; the hovered element and the other fields are kept; the result is its text |
| `FrameTimer.Elapsed` | src/window/frame_timer.rs:34-34 | the time from one instant to a later one, or zero when the first is the later, as instant subtraction saturates |
| `FrameTimer.Average` | src/window/frame_timer.rs:56-56 | the average of a window of frames is the sum divided by 20 and rounded down |
| `FrameTimer.Distance` | src/window/frame_timer.rs:65-65 | the distance of a frame from the average is the larger less the smaller |
| `FrameTimer.NewVsyncSpec` | src/window/frame_timer.rs:51-71 | the vsync duration changes only after a stable window of frames, and then lies a millisecond below the average, or at zero; it is no longer than any frame of the window, and shorter than each when the average is at least a millisecond |
| `FrameTimer.WaitFor` | src/window/frame_timer.rs:75-84 | the frame sleeps exactly when the last frame ran for less than the vsync duration, and then for the rest of it |
| `FrameTimer.SteadyWait` | src/window/frame_timer.rs:74-84 | a frame that ran for less than the vsync duration waits exactly what is left of it |
| `FrameTimer.SumDurations` | src/window/frame_timer.rs:52-55 | the loop adds up the window's durations |
| `FrameTimer.AllWithinMargin` | src/window/frame_timer.rs:62-66 | the loop answers whether every frame lies within a millisecond of the average |
| `FrameTimer.Timer.constructor` | src/window/frame_timer.rs:20-29 | nothing measured yet, no vsync duration and an empty window of frames |
| `FrameTimer.Timer.EndFrame` | src/window/frame_timer.rs:31-37 | the frame ends now, and the time since the previous end, if any, is the frame's duration; nothing else changes |
| `FrameTimer.Timer.BeginFrame` | src/window/frame_timer.rs:39-87 | the frame's start is read after the sleep, at the entry time plus the wait and the sleep's overshoot, or at the entry time when there is no wait; once an end, a duration and a start are known, the duration joins the window, a full window of 20 is judged and emptied, and with a vsync duration the frame waits what it leaves after the last frame's running time; the window never holds 20 between frames |
| `FrameTimer.VsyncAsWritten` | src/window/frame_timer.rs:56-67 | as written, whenever the update does not fail it agrees with the corrected one |
| `FrameTimer.FastFramesPanic` | src/window/frame_timer.rs:56-67 | twenty frames of half a millisecond are stable, and the update as written fails on them |
| `WindowInput.RemoveFirstSpec` | src/window/window_glutin.rs:335-340 | a release takes exactly one copy out of a list holding one and nothing else, and changes nothing in a list holding none |
| `WindowInput.RemoveFirstKeepsDistinct` | src/window/window_glutin.rs:335-340 | a list without duplicates keeps none after a release, and no longer holds what was released |
| `WindowInput.RemoveFirstIn` | src/window/window_glutin.rs:335-340 | the search loop removes the first equal entry and stops |
| `WindowInput.Contains` | src/window/window_glutin.rs:320-326 | the `already_pressed` loop answers whether the key is held |
| `WindowInput.TrackedRecordsEveryInput` | src/window/window_glutin.rs:346-364 | with every press recorded, the pressed and released lists gain exactly the presses and the releases, in order |
| `WindowInput.TrackedOnceKeepsHeldDistinct` | src/window/window_glutin.rs:315-343 | with presses of held keys ignored, held keys never repeat, every release is recorded, and only presses are recorded as pressed |
| `WindowInput.ReleaseSpec` | src/window/window_glutin.rs:333-341 | a release of a held key takes one copy of it out of the held list, and with no duplicates it is no longer held |
| `WindowInput.TrackKeysOnce` | src/window/window_glutin.rs:315-343 | the keyboard loop applies each key input in order, a press only when the key is not held |
| `WindowInput.TrackAll` | src/window/window_glutin.rs:346-364 | the mouse loop applies each button input in order, every press recorded |
| `WindowInput.FromWinit` | src/window/window_glutin.rs:275-280 | left, right and middle map to themselves and other button n to other button n plus 3 |
| `WindowInput.FromWinitInjective` | src/window/window_glutin.rs:275-280 | different winit buttons are different window buttons |
| `WindowGlutinOld.RunningUnlessClosed` | src/window_glutin.rs:175-201 | the window keeps running exactly when no close was requested |
| `WindowGlutinOld.CollectsKeys` | src/window_glutin.rs:180-185 | the key events with a key code are collected in order |
| `WindowGlutinOld.RecordsTyped` | src/window_glutin.rs:186-186 | the typed characters are recorded in order |
| `WindowGlutinOld.Poll` | src/window_glutin.rs:175-201 | the polling applies the closure to each event in order |
| `WindowGlutinOld.Window.constructor` | src/window_glutin.rs:135-153 | nothing held, pressed, released or typed, and the cursor at the origin and outside |
| `WindowGlutinOld.Window.Refresh` | src/window_glutin.rs:165-271 | typed characters start empty; the result is whether no close was requested; characters and cursor are those of the events; keys and buttons are tracked from what was held, with key presses recorded only for keys not held; held keys never repeat |
| `WindowGlutinOld.Window.TrackKeys` | src/window_glutin.rs:203-232 | the pressed and released keys start empty and each key input is applied, presses only for keys not held; nothing else changes |
| `WindowGlutinOld.Window.TrackButtons` | src/window_glutin.rs:234-253 | the pressed and released buttons start empty and each button input is applied; nothing else changes |
| `WindowGlutin.Collect` | src/window/window_glutin.rs:267-280 | a key or button event adds only to the collected inputs |
| `WindowGlutin.FileEvent` | src/window/window_glutin.rs:293-307 | a file event changes only the dropped and hovered files |
| `WindowGlutin.CursorEvent` | src/window/window_glutin.rs:273-291 | a character, cursor or wheel event changes only the typed characters, the cursor or the scroll |
| `WindowGlutin.RunningUnlessClosed` | src/window/window_glutin.rs:260-312 | the window keeps running exactly when no close was requested and the window was not destroyed |
| `WindowGlutin.DroppedThisFrame` | src/window/window_glutin.rs:293-301 | the dropped files are the frame's drops in order |
| `WindowGlutin.HoveredThisFrame` | src/window/window_glutin.rs:293-307 | a file is hovered only if it was hovered before or during the frame, and no more often |
| `WindowGlutin.DropStopsHovering` | src/window/window_glutin.rs:293-301 | a dropped file stops being hovered once, and nothing else stops |
| `WindowGlutin.Poll` | src/window/window_glutin.rs:260-312 | the polling applies the closure to each event in order |
| `WindowGlutin.PollEvent` | src/window/window_glutin.rs:261-311 | one event is applied as the closure says, the hovered files searched for a dropped one |
| `WindowGlutin.Window.constructor` | src/window/window_glutin.rs:195-219 | nothing held, pressed, released, typed, dropped or hovered, the cursor at the origin and outside, no scroll, and 36 pixels a line |
| `WindowGlutin.Window.Refresh` | src/window/window_glutin.rs:242-398 | scroll, typed characters and dropped files start empty; the result is whether no close or destruction came; everything else the events say is recorded; keys and buttons are tracked from what was held; held keys never repeat |
| `WindowGlutin.Window.TrackKeys` | src/window/window_glutin.rs:314-343 | the pressed and released keys start empty and each key input is applied, presses only for keys not held; nothing else changes |
| `WindowGlutin.Window.TrackButtons` | src/window/window_glutin.rs:345-364 | the pressed and released buttons start empty and each button input is applied; nothing else changes |
| `WindowGlfw.FromGlfw` | src/window_glfw.rs:296-306 | buttons 1, 2 and 3 are left, right and middle, and button n from 4 on is other button n |
| `WindowGlfw.FromGlfwInjective` | src/window_glfw.rs:296-306 | different GLFW buttons are different window buttons |
| `WindowGlfw.OtherStep` | src/window_glfw.rs:294-338 | characters, the cursor, the scroll and drops never touch the keys and buttons |
| `WindowGlfw.KeysAndButtonsTracked` | src/window_glfw.rs:280-322 | keys and buttons alike are tracked with every press recorded and repeats ignored |
| `WindowGlfw.PressTwiceHeldTwice` | src/window_glfw.rs:280-283 | a key pressed twice in a frame is held twice, so held keys can repeat here |
| `WindowGlfw.LastDropWins` | src/window_glfw.rs:338-338 | the dropped files are those of the frame's last drop |
| `WindowGlfw.NoDropKeeps` | src/window_glfw.rs:338-338 | without a drop the dropped files stay as they were |
| `WindowGlfw.FrameStart` | src/window_glfw.rs:271-275 | corrected: a frame starts with the pressed and released keys and buttons, the typed characters, the scroll and the drops emptied, and what is held and the cursor kept |
| `WindowGlfw.FrameReportsOnlyItsOwnInput` | src/window_glfw.rs:268-322 | corrected: after a refresh the pressed and released keys and buttons are exactly those of the frame's own events, in order |
| `WindowGlfw.FrameStartAsWritten` | src/window_glfw.rs:271-275 | as written, the pressed and released buttons are carried into the next frame |
| `WindowGlfw.AsWrittenRepeatsClicks` | src/window_glfw.rs:271-313 | as written, a click is reported again in a following frame without input; with the buttons emptied it is not |
| `WindowGlfw.StepEvent` | src/window_glfw.rs:279-357 | one event is applied as the loop body says, the held list searched on a release |
| `WindowGlfw.StepEvents` | src/window_glfw.rs:278-358 | the loop applies each event in order |
| `WindowGlfw.Window.constructor` | src/window_glfw.rs:219-245 | nothing held, pressed, released, typed or dropped, the cursor at the origin and outside, no scroll, 36 pixels a line, and the given DPI factor |
| `WindowGlfw.Window.Refresh` | src/window_glfw.rs:268-374 | corrected: the frame starts emptied, then each event is applied in order; the result is whether the window should stay open; the DPI factor and scroll length stay |

## Left out

- GL calls are not modelled: shader compilation and linking, buffer, texture and vertex array creation, `TexSubImage2D`, `clear_texture_area`, `print_gl_errors`, and the projection matrix. `render` in both renderer versions returns the uploads and draws it would make as a list.
- `GlyphLines.ReserveKeepsLinePacked`: packing is proved only for widths from 1 to `cacheWidth - 2*MARGIN`. On an empty line `reserve_width` answers MARGIN without comparing the width with the texture (src/text/glyph_cache.rs:141-143). So a wider glyph reserved on a new line runs past the texture's right edge, and the line is then not packed. `GlyphLines.WideGlyphOverruns` exhibits this.
- `GlyphAtlas.ExistingKeepsTidy`: proved only for widths from 1 to `cacheWidth - 2*MARGIN`, for the same reason.
- `GlyphAtlas.NewLineKeepsTidy`: proved only for widths from 1 to `cacheWidth - 2*MARGIN`; a wider glyph on the new line overruns the texture.
- `GlyphAtlas.MissKeepsTidy`: proved only for widths from 1 to `cacheWidth - 2*MARGIN`, for the same reason.
- `GlyphAtlas.ReserveUvsKeepsTidy`: proved only for widths from 1 to `cacheWidth - 2*MARGIN`, for the same reason.
- `initialize_renderer`, `create_program`, `create_vao` and `create_texture` are left out, because they consist of GL calls only.
- Window creation, event polling, buffer swapping, the viewport, and the resize and DPI arithmetic in the window backends are left out as platform I/O. Each `refresh` takes the frame's events as a list.
- The sleep in `begin_frame` is left to the caller, who is told how long to wait. The clock is the `now` parameter at entry, and `overshoot` is how much longer than asked the sleep lasted; the start is read after the sleep.
- Integer widths: `i32` and `usize` are unbounded integers wherever the source cannot overflow for the inputs it sees. Where a wrap or a panic matters it is modelled explicitly:
  - `FrameTimer.VsyncAsWritten` models the panicking duration subtraction;
  - `Images.FromColor` takes the `usize` conversion of `width * height` as a precondition.
- Floating-point rounding, `INFINITY` sentinels and `NaN` are not modelled: `f32` values are reals.
- `as i32` on a float truncates toward zero; its saturation at the bounds of `i32` is not modelled.
- Strings are sequences of characters, so byte lengths and character counts coincide. This is exact for ASCII text and differs from the source for other text (`default_text.len()` in the text fields, the 16-byte and 13-byte offsets in `parse_version`).
- `str::lines` follows current Rust: a "\r" that ends the last line, with no "\n" after it, is kept. Rust releases before 1.77 dropped it.
- `get_metric` of the 8x8 font is left out, because it rounds with `f32` `fract` and `trunc`. The glyph tables of the external `font8x8` crate are a parameter whose row counts are assumed.
- Code built on the `rusttype` crate is not part of this model. This includes the version of `src/text/layout.rs` that `src/text/mod.rs` calls; its line measure and advance are parameters of the font there.
- `debug_draw_glyph_cache` in `src/text/mod.rs` and the profiler calls are left out, because they are debugging and instrumentation.
- The rotation argument `compose_draw_call` passes to the renderer is a constant and is left out.
- In `src/text_dummy.rs`, `previous_character` and `previous_char` only feed the `_previous_char` argument of `get_char_width`, which ignores it, so they are left out there. In `src/text/mod.rs` the previous character is modelled: it selects the advance that moves the cursor.
- `Font8x8.Provider.RenderGlyph`: the font calls `cache.reserve(id, w, h)` and `cache.upload_glyph`, which `src/text/glyph_cache.rs` does not define. The model uses `reserve_uvs` (`GlyphAtlas.GlyphCache.ReserveUvs`) for the first call. For the second it returns the pixels to upload as `upload`, because the upload itself is a GL call.
- `TextDummy.DummyTextRenderer.DrawText` takes a ghost parameter naming the line measure, which its precondition ties to `get_line_length_and_width`. The parameter only serves the specification; the source has no such argument.
- The shader sources' contents are left out: they are opaque strings, and only their `#version` lines and the preamble logic are modelled. The debug logging in `src/shaders/mod.rs` is left out.
- `text::draw_text` in the `render` of `src/renderer.rs` is left out, because the text renderer it calls is `rusttype`-based.
- Drawing a UI element is left out in `src/ui.rs`, `src/ui/element.rs` and `src/ui/element/mod.rs`: the nine-patch quads, the queued text, and the cursor and its blink. The nine-patch loop of `src/ui/mod.rs` is modelled. `renderer::queue_text` is not part of this model.
- `UiMod.UiState.Update` does not model the window size stored in `WINDOW_DIMENSIONS`, which only the drawing reads.
- The text fields' `selection_time` is left out, because it serves the cursor blink only.
- In `src/ui/element.rs` and `src/ui/element/mod.rs`, `new_element` and `MouseStatus::clicked` come from a version of `src/ui/mod.rs` that is not part of this model. The element's rectangle and whether the mouse was just clicked are therefore inputs.
- `UiElement.UiState.constructor`: the initial UI state of that version is not part of the source, so the mouse is given.
- The `button` and `button_image` of `src/ui/element.rs` are the same as those of `src/ui/element/mod.rs`, which `UiElementMod` models, up to drawing: they pass a different `draw_element` flag, and drawing is left out.
- `gl_error_to_string` of `src/renderer/mod.rs` (lines 265-278) has the same text as that of `src/renderer.rs`, which `Renderer.GlErrorToString` models.
- `src/mouse.rs` is not part of this model. Its `Mouse` is the datatype `WindowInput.Mouse`.
- `WindowInput.FromWinit`: winit's other buttons are numbered in `u8`, and `n + 3` overflows for buttons 253 to 255. The model adds without wrapping.
- The hovered files of `src/window_glfw.rs` are never touched by its `refresh`, so they are left out.
- `WindowGlfw.Window.Refresh` keeps the DPI factor. This matches builds for platforms other than Windows and macOS, where `HIDPI_AUTO` is false. On Windows and macOS a resize recomputes the factor, which is not modelled.
- `UiInput.TextFields.MoveCursor` requires the modifier to be above `i32::MIN`, because `-modifier` overflows there.
- `Renderer.QuadBuffers.DrawQuad` and `RendererMod.Buffers.DrawQuad` copy the 30 floats of the quad, the corrected behaviour. The out-of-bounds copy of the code as written is `Renderer.CopyAsWritten`, which works on a value.

## Findings

| source | as written | input that shows it | evidently intended | confidence | as-written member | corrected member |
|---|---|---|---|---|---|---|
| src/text/layout.rs:80-84 | on overflow after a break opportunity, the width since the break and then the overflowing glyph's width are both subtracted, though the first already includes the second | "a bc", every glyph 10 wide, maximum width 25: the line is "a " and its width comes out 0 | the line's width is that of the glyphs before the break, 10 | not executed | `TextLayout.OverflowAfterBreakPopsTwice` | `TextLayout.LineLengthAndWidthIsRef` |
| src/text_dummy.rs:112-132 | a line whose first word is wider than the maximum width gets length 0, and `draw_text` then skips zero characters and loops forever | "a" at font size 16 with a maximum line width of 1 | every line takes at least one character, so the text left shrinks | not executed | `TextDummy.DrawTextStalls` | `TextDummy.LinesProgress` |
| src/gl_version.rs:70-88 | only the OpenGL ES 1.x prefix "OpenGL ES-" is recognised; the "OpenGL ES " prefix of ES 2.0 and later is read as a desktop string whose major version "OpenGL ES 3" does not parse | "OpenGL ES 3.2" gives `Unavailable` | ES 3.2 | not executed | `GlVersion.LaterEsIsUnavailable` | `GlVersion.LaterEsRoundTrip` |
| src/renderer.rs:219-224 | `ptr::copy` of `f32` elements is passed `size_of::<TexQuad>()`, 120, as its count, so it copies 120 floats from a 30-float quad; `src/renderer/mod.rs:214-219` does the same | the last quad of the UI texture's buffer, or any of the last three of the glyph cache texture's buffer | copy the 30 floats of the quad | not executed | `Renderer.AsWrittenOverwritesGlyphQuads` | `Renderer.QuadBuffers.DrawQuad` |
| src/window/frame_timer.rs:56-67 | the vsync duration is `avg - FRAME_DURATION_ERROR_MARGIN` on `Duration`s, which panics when the average is under a millisecond | twenty frames of half a millisecond each | a vsync duration that stops at zero | not executed | `FrameTimer.FastFramesPanic` | `FrameTimer.NewVsyncSpec` |
| src/window_glfw.rs:271-275 | the pressed and released mouse buttons are never cleared at the start of `refresh`, unlike the keys | a click of button 1, then a frame with no events: the click is reported again | the buttons are cleared with the keys, so a frame reports only its own input | not executed | `WindowGlfw.AsWrittenRepeatsClicks` | `WindowGlfw.FrameReportsOnlyItsOwnInput` |
