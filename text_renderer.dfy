/**
 * The text draw queue of `src/text/mod.rs`: `draw_text` lays a string out
 * into positioned glyphs, queues them with one `TextDrawData` entry per
 * call and returns their bounding box; `compose_draw_call` turns the queue
 * into textured quads and empties it.
 *
 * The font is abstract. Besides the provider's own queries (glyph id, line
 * height, metric), the two layout helpers this file calls, which measure a
 * line and the advance between two characters, are parameters of the font,
 * because the version of `src/text/layout.rs` they come from is not part
 * of this model. Floating-point values are reals; `as i32` truncates.
 */
module TextQueue {
  import opened Wrappers
  import opened Types
  import TextLayout

  /** A queued glyph: where it goes on screen, its `TextDrawData` entry and its id. */
  datatype Glyph = Glyph(screenLocation: RectPx, drawData: nat, id: nat)

  /** The per-call data shared by all glyphs of one `draw_text`. */
  datatype TextDrawData = TextDrawData(clipArea: Option<Rect>, color: (real, real, real, real),
                                       fontSize: real, z: real)

  datatype Metric = Metric(glyphId: nat, size: RectPx)

  /** The font and the layout helpers `draw_text` calls. */
  datatype Font = Font(glyphId: char -> nat,
                       lineHeight: real -> int,
                       metric: (nat, real) -> RectPx,
                       charAdvance: (char, char, real) -> Option<int>,
                       lineLength: (seq<char>, Option<int>, real) -> (nat, int))

  /** The line measure takes at least one character of a non-empty text and
      no more than there are, as `src/text/layout.rs` guarantees for its own. */
  ghost predicate LinesProgress(font: Font)
  {
    forall s: seq<char>, m: Option<int>, fs: real ::
      |s| > 0 ==> 1 <= font.lineLength(s, m, fs).0 <= |s|
  }

  /** `as i32` on a float: truncation toward zero (saturation is not modelled). */
  function Trunc(r: real): (n: int)
    ensures 0.0 <= r ==> n as real <= r < n as real + 1.0
    ensures r < 0.0 ==> n as real - 1.0 < r <= n as real
  {
    if r >= 0.0 then r.Floor else -((-r).Floor)
  }

  /** The metric `draw_text` memoises for a character. */
  function MetricFor(font: Font, fontSize: real, c: char): Metric
  {
    Metric(font.glyphId(c), font.metric(font.glyphId(c), fontSize))
  }

  /** Every character of `s` has its metric in the memo. */
  predicate Memoised(metrics: map<char, Metric>, font: Font, fontSize: real, s: seq<char>)
  {
    forall k :: 0 <= k < |s| ==> s[k] in metrics && metrics[s[k]] == MetricFor(font, fontSize, s[k])
  }

  lemma MemoisedSplit(metrics: map<char, Metric>, font: Font, fontSize: real, s: seq<char>, n: nat)
    requires Memoised(metrics, font, fontSize, s) && n <= |s|
    ensures Memoised(metrics, font, fontSize, s[..n]) && Memoised(metrics, font, fontSize, s[n..])
  {
    forall k | 0 <= k < |s| - n ensures s[n..][k] == s[n + k] { }
  }

  /** `RectPx + PositionPx`: the metric moved to the cursor. */
  function Placed(size: RectPx, x: int, y: int): (r: RectPx)
    ensures r.x - size.x == x && r.y - size.y == y
    ensures r.width == size.width && r.height == size.height
  {
    RectPx(size.x + x, size.y + y, size.width, size.height)
  }

  // ---------------------------------------------------------------------
  // What draw_text queues

  /** The glyphs of one line: the cursor moves by the advance from the
      previous character before every character but the first. */
  function LineGlyphs(font: Font, fontSize: real, line: seq<char>, x: int, y: int,
                      prev: Option<char>, drawData: nat): seq<Glyph>
    decreases |line|
  {
    if |line| == 0 then []
    else
      var c := line[0];
      var x1 := NextX(font, fontSize, c, prev, x);
      var m := MetricFor(font, fontSize, c);
      [Glyph(Placed(m.size, x1, y), drawData, m.glyphId)]
        + LineGlyphs(font, fontSize, line[1..], x1, y, Some(c), drawData)
  }

  /** The cursor x for `c`: moved by the advance from the previous
      character, when there is one and the font gives an advance. */
  function NextX(font: Font, fontSize: real, c: char, prev: Option<char>, x: int): int
  {
    var adv := if prev.Some? then font.charAdvance(c, prev.value, fontSize) else None;
    if adv.Some? then x + adv.value else x
  }

  /** One step of a line: the first glyph, then the rest of the line. */
  lemma LineGlyphsUnfold(font: Font, fontSize: real, line: seq<char>, i: nat, x: int, y: int,
                         prev: Option<char>, drawData: nat)
    requires i < |line|
    ensures var x1 := NextX(font, fontSize, line[i], prev, x);
      var m := MetricFor(font, fontSize, line[i]);
      LineGlyphs(font, fontSize, line[i..], x, y, prev, drawData) ==
        [Glyph(Placed(m.size, x1, y), drawData, m.glyphId)]
          + LineGlyphs(font, fontSize, line[i + 1..], x1, y, Some(line[i]), drawData)
  {
    assert line[i..][1..] == line[i + 1..];
  }

  /** One character of a line loop: the glyphs still to come split into
      the character's glyph and those of the rest of the line. */
  lemma QueueLineStep(font: Font, fontSize: real, line: seq<char>, i: nat, x: int, y: int,
                      prev: Option<char>, drawData: nat, added: seq<Glyph>, whole: seq<Glyph>)
    requires i < |line|
    requires added + LineGlyphs(font, fontSize, line[i..], x, y, prev, drawData) == whole
    ensures var x1 := NextX(font, fontSize, line[i], prev, x);
      var m := MetricFor(font, fontSize, line[i]);
      (added + [Glyph(Placed(m.size, x1, y), drawData, m.glyphId)])
        + LineGlyphs(font, fontSize, line[i + 1..], x1, y, Some(line[i]), drawData) == whole
  {
    LineGlyphsUnfold(font, fontSize, line, i, x, y, prev, drawData);
  }

  /** Where a line starts: aligned within the maximum width when there is
      one, at the base otherwise. */
  function LineStart(baseX: int, width: int, maxWidth: Option<int>, alignment: TextLayout.Alignment): int
  {
    if maxWidth.Some? then TextLayout.GetLineStartX(baseX, width, maxWidth.value, alignment) else baseX
  }

  /** The glyphs of a text, line by line; each line starts again from the
      base x, one line height further down. */
  function TextGlyphs(font: Font, fontSize: real, maxWidth: Option<int>, alignment: TextLayout.Alignment,
                      baseX: int, y: int, text: seq<char>, drawData: nat): seq<Glyph>
    requires LinesProgress(font)
    decreases |text|
  {
    if |text| == 0 then []
    else
      var (len, width) := font.lineLength(text, maxWidth, fontSize);
      var x := LineStart(baseX, width, maxWidth, alignment);
      LineGlyphs(font, fontSize, text[..len], x, y, None, drawData)
        + TextGlyphs(font, fontSize, maxWidth, alignment, baseX, y + font.lineHeight(fontSize), text[len..], drawData)
  }

  /** A logical-pixel quantity in physical pixels. */
  function Physical(v: real, dpi: real): real
  {
    v * dpi
  }

  /** The maximum line width in physical pixels. */
  function MaxWidthPx(maxLineWidth: Option<real>, dpi: real): Option<int>
  {
    if maxLineWidth.Some? then Some(Trunc(Physical(maxLineWidth.value, dpi))) else None
  }

  /** The glyphs `draw_text` queues, from its logical-pixel arguments: the
      position, the font size and the maximum width scaled by the DPI
      factor. */
  function Layout(font: Font, dpi: real, text: seq<char>, x: real, y: real, fontSize: real,
                  alignment: TextLayout.Alignment, maxLineWidth: Option<real>, drawData: nat): seq<Glyph>
    requires LinesProgress(font)
  {
    TextGlyphs(font, Physical(fontSize, dpi), MaxWidthPx(maxLineWidth, dpi), alignment,
               Trunc(Physical(x, dpi)), Trunc(Physical(y, dpi)),
               text, drawData)
  }

  /** One line of a text: its length is within the text, and the text's
      glyphs are the line's followed by the rest's. */
  lemma TextGlyphsUnfold(font: Font, fontSize: real, maxWidth: Option<int>, alignment: TextLayout.Alignment,
                         baseX: int, y: int, text: seq<char>, drawData: nat)
    requires LinesProgress(font) && |text| > 0
    ensures var (len, width) := font.lineLength(text, maxWidth, fontSize);
      1 <= len <= |text| &&
      TextGlyphs(font, fontSize, maxWidth, alignment, baseX, y, text, drawData) ==
        LineGlyphs(font, fontSize, text[..len], LineStart(baseX, width, maxWidth, alignment), y, None, drawData)
          + TextGlyphs(font, fontSize, maxWidth, alignment, baseX, y + font.lineHeight(fontSize), text[len..], drawData)
  {
  }

  /** One line of the line loop: once the next line's glyphs are added,
      the glyphs still to come are those of the lines after it. */
  lemma QueueTextStep(font: Font, fontSize: real, maxWidth: Option<int>, alignment: TextLayout.Alignment,
                      baseX: int, y: int, text: seq<char>, drawData: nat, added: seq<Glyph>, target: seq<Glyph>,
                      len: nat, line: seq<Glyph>, added': seq<Glyph>, y': int, text': seq<char>)
    requires LinesProgress(font) && |text| > 0
    requires added + TextGlyphs(font, fontSize, maxWidth, alignment, baseX, y, text, drawData) == target
    requires len == font.lineLength(text, maxWidth, fontSize).0
    requires line == LineGlyphs(font, fontSize, text[..len],
                LineStart(baseX, font.lineLength(text, maxWidth, fontSize).1, maxWidth, alignment), y, None, drawData)
    requires len <= |text| && added' == added + line && y' == y + font.lineHeight(fontSize) && text' == text[len..]
    ensures added' + TextGlyphs(font, fontSize, maxWidth, alignment, baseX, y', text', drawData) == target
  {
    TextGlyphsUnfold(font, fontSize, maxWidth, alignment, baseX, y, text, drawData);
  }

  // ---------------------------------------------------------------------
  // The bounding box

  datatype Box = Box(minX: real, minY: real, maxX: real, maxY: real)

  function RMin(a: real, b: real): real { if a <= b then a else b }
  function RMax(a: real, b: real): real { if a >= b then a else b }

  /** A glyph's own corners, in logical pixels. */
  function GlyphBox(g: Glyph, dpi: real): Box
    requires dpi > 0.0
  {
    var l := g.screenLocation;
    Box(l.x as real / dpi, l.y as real / dpi, (l.x + l.width) as real / dpi, (l.y + l.height) as real / dpi)
  }

  /** The box grown to take in one glyph, in logical pixels. No box stands
      for the infinite sentinels the source starts from. */
  function Extend(b: Option<Box>, g: Glyph, dpi: real): Box
    requires dpi > 0.0
  {
    var c := GlyphBox(g, dpi);
    match b
    case None => c
    case Some(b) => Box(RMin(b.minX, c.minX), RMin(b.minY, c.minY), RMax(b.maxX, c.maxX), RMax(b.maxY, c.maxY))
  }

  function BoxOf(gs: seq<Glyph>, dpi: real): Option<Box>
    requires dpi > 0.0
  {
    if |gs| == 0 then None else Some(Extend(BoxOf(gs[..|gs| - 1], dpi), gs[|gs| - 1], dpi))
  }

  /** The clip area, when there is one, shrinks the box; the sentinels of an
      empty box stay infinite. */
  function Clip(b: Option<Box>, clipArea: Option<Rect>): Option<Box>
  {
    match (b, clipArea)
    case (None, _) => None
    case (Some(b), None) => Some(b)
    case (Some(b), Some(a)) =>
      var (x0, y0, x1, y1) := IntoCorners(a);
      Some(Box(RMax(b.minX, x0), RMax(b.minY, y0), RMin(b.maxX, x1), RMin(b.maxY, y1)))
  }

  function BoxToRect(b: Option<Box>): Option<Rect>
  {
    match b
    case None => None
    case Some(b) => Some(RectFromTuple((b.minX, b.minY, b.maxX - b.minX, b.maxY - b.minY)))
  }

  // ---------------------------------------------------------------------
  // compose_draw_call

  /** A textured quad handed to the renderer. */
  datatype Quad = Quad(screen: Rect, texcoords: Rect, color: (real, real, real, real), z: real, clipArea: Option<Rect>)

  /** Half a pixel of padding on every side. */
  function Pad(r: RectPx): Rect
  {
    Rect(r.x as real - 0.5, r.y as real - 0.5, r.width as real + 1.0, r.height as real + 1.0)
  }

  predicate Indexed(gs: seq<Glyph>, n: nat)
  {
    forall k :: 0 <= k < |gs| ==> gs[k].drawData < n
  }

  /** The quads for the queued glyphs, in order, skipping every glyph the
      font does not render. */
  function Composed(gs: seq<Glyph>, dds: seq<TextDrawData>, render: (nat, real) -> Option<RectPx>): seq<Quad>
    requires Indexed(gs, |dds|)
  {
    if |gs| == 0 then []
    else
      var g := gs[0];
      var d := dds[g.drawData];
      var rest := Composed(gs[1..], dds, render);
      match render(g.id, d.fontSize)
      case None => rest
      case Some(t) => [Quad(Pad(g.screenLocation), Pad(t), d.color, d.z, d.clipArea)] + rest
  }

  // ---------------------------------------------------------------------
  // Properties

  /** A line yields one glyph per character, in order, each with the
      character's glyph id and the given draw data entry. */
  lemma {:induction false} LineGlyphsShape(font: Font, fontSize: real, line: seq<char>, x: int, y: int,
                                           prev: Option<char>, drawData: nat)
    ensures var gs := LineGlyphs(font, fontSize, line, x, y, prev, drawData);
      |gs| == |line| &&
      forall k :: 0 <= k < |gs| ==>
        gs[k].drawData == drawData && gs[k].id == font.glyphId(line[k]) &&
        gs[k].screenLocation.y == font.metric(gs[k].id, fontSize).y + y
    decreases |line|
  {
    if |line| > 0 {
      var c := line[0];
      var adv := if prev.Some? then font.charAdvance(c, prev.value, fontSize) else None;
      var x1 := if adv.Some? then x + adv.value else x;
      LineGlyphsShape(font, fontSize, line[1..], x1, y, Some(c), drawData);
    }
  }

  /** `gs` holds one glyph per character of `text`, in order, each with the
      character's glyph id and the given draw data entry, and each on some
      line: its y is the metric's y, plus the first line's y, plus a whole
      number of line heights. */
  ghost predicate OnLines(font: Font, fontSize: real, gs: seq<Glyph>, text: seq<char>, y: int, drawData: nat)
  {
    |gs| == |text| &&
    forall k :: 0 <= k < |gs| ==>
      gs[k].drawData == drawData && gs[k].id == font.glyphId(text[k]) &&
      exists line: nat ::
        gs[k].screenLocation.y == font.metric(gs[k].id, fontSize).y + y + line * font.lineHeight(fontSize)
  }

  /** A glyph on some line below the first line's y is on a line below
      the y one line height higher up. */
  lemma OneLineUp(g: Glyph, my: int, y: int, lh: int, line: nat)
    requires g.screenLocation.y == my + (y + lh) + line * lh
    ensures g.screenLocation.y == my + y + (line + 1) * lh
  {
  }

  /** The first line, on the first line's y, followed by the other lines,
      one line height further down, are on the lines of the whole text. */
  lemma {:induction false} OnLinesAppend(font: Font, fontSize: real, first: seq<Glyph>, rest: seq<Glyph>,
                                         text: seq<char>, len: nat, y: int, drawData: nat)
    requires len <= |text| && |first| == len
    requires forall k :: 0 <= k < |first| ==>
      first[k].drawData == drawData && first[k].id == font.glyphId(text[k]) &&
      first[k].screenLocation.y == font.metric(first[k].id, fontSize).y + y
    requires OnLines(font, fontSize, rest, text[len..], y + font.lineHeight(fontSize), drawData)
    ensures OnLines(font, fontSize, first + rest, text, y, drawData)
  {
    var lh := font.lineHeight(fontSize);
    var gs := first + rest;
    forall k | 0 <= k < |gs|
      ensures gs[k].drawData == drawData && gs[k].id == font.glyphId(text[k]) &&
        exists line: nat :: gs[k].screenLocation.y == font.metric(gs[k].id, fontSize).y + y + line * lh
    {
      if k < |first| {
        assert gs[k].screenLocation.y == font.metric(gs[k].id, fontSize).y + y + 0 * lh;
      } else {
        var r := k - |first|;
        assert gs[k] == rest[r] && text[len..][r] == text[k];
        var line: nat :| rest[r].screenLocation.y == font.metric(rest[r].id, fontSize).y + (y + lh) + line * lh;
        OneLineUp(gs[k], font.metric(gs[k].id, fontSize).y, y, lh, line);
      }
    }
  }

  /** A text yields one glyph per character, in order, each with the
      character's glyph id and the given draw data entry, on the line the
      layout put it on. */
  lemma {:induction false} TextGlyphsShape(font: Font, fontSize: real, maxWidth: Option<int>,
                                           alignment: TextLayout.Alignment, baseX: int, y: int,
                                           text: seq<char>, drawData: nat)
    requires LinesProgress(font)
    ensures OnLines(font, fontSize, TextGlyphs(font, fontSize, maxWidth, alignment, baseX, y, text, drawData),
                    text, y, drawData)
    decreases |text|
  {
    if |text| > 0 {
      var (len, width) := font.lineLength(text, maxWidth, fontSize);
      var x := LineStart(baseX, width, maxWidth, alignment);
      var lh := font.lineHeight(fontSize);
      var first := LineGlyphs(font, fontSize, text[..len], x, y, None, drawData);
      var rest := TextGlyphs(font, fontSize, maxWidth, alignment, baseX, y + lh, text[len..], drawData);
      LineGlyphsShape(font, fontSize, text[..len], x, y, None, drawData);
      TextGlyphsShape(font, fontSize, maxWidth, alignment, baseX, y + lh, text[len..], drawData);
      assert forall k :: 0 <= k < |first| ==> text[..len][k] == text[k];
      OnLinesAppend(font, fontSize, first, rest, text, len, y, drawData);
    }
  }

  /** Every glyph of a text carries the given draw data entry. */
  lemma {:induction false} TextGlyphsIndexed(font: Font, fontSize: real, maxWidth: Option<int>,
                                             alignment: TextLayout.Alignment, baseX: int, y: int,
                                             text: seq<char>, drawData: nat)
    requires LinesProgress(font)
    ensures Indexed(TextGlyphs(font, fontSize, maxWidth, alignment, baseX, y, text, drawData), drawData + 1)
    decreases |text|
  {
    if |text| > 0 {
      var (len, width) := font.lineLength(text, maxWidth, fontSize);
      var x := LineStart(baseX, width, maxWidth, alignment);
      LineGlyphsShape(font, fontSize, text[..len], x, y, None, drawData);
      TextGlyphsIndexed(font, fontSize, maxWidth, alignment, baseX, y + font.lineHeight(fontSize), text[len..], drawData);
    }
  }

  /** `c` lies inside `b`. */
  predicate Within(c: Box, b: Box)
  {
    b.minX <= c.minX && b.minY <= c.minY && c.maxX <= b.maxX && c.maxY <= b.maxY
  }

  /** The box of a run of glyphs exists iff the run is not empty, and it
      holds every glyph of the run. */
  lemma {:induction false} BoxOfHolds(gs: seq<Glyph>, dpi: real)
    requires dpi > 0.0
    ensures BoxOf(gs, dpi).Some? <==> |gs| > 0
    ensures BoxOf(gs, dpi).Some? ==>
      forall k :: 0 <= k < |gs| ==> Within(GlyphBox(gs[k], dpi), BoxOf(gs, dpi).value)
  {
    if |gs| > 0 {
      var init := gs[..|gs| - 1];
      BoxOfHolds(init, dpi);
      var b := BoxOf(gs, dpi).value;
      forall k | 0 <= k < |gs| ensures Within(GlyphBox(gs[k], dpi), b) {
        if k < |init| {
          assert gs[k] == init[k];
          assert Within(GlyphBox(init[k], dpi), BoxOf(init, dpi).value);
        }
      }
    }
  }

  /** Each side of the box of a non-empty run touches some glyph of the
      run: the box is no larger than it has to be. */
  lemma {:induction false} BoxOfTouches(gs: seq<Glyph>, dpi: real)
    requires dpi > 0.0 && |gs| > 0
    ensures var b := BoxOf(gs, dpi).value;
      (exists k :: 0 <= k < |gs| && b.minX == GlyphBox(gs[k], dpi).minX) &&
      (exists k :: 0 <= k < |gs| && b.minY == GlyphBox(gs[k], dpi).minY) &&
      (exists k :: 0 <= k < |gs| && b.maxX == GlyphBox(gs[k], dpi).maxX) &&
      (exists k :: 0 <= k < |gs| && b.maxY == GlyphBox(gs[k], dpi).maxY)
  {
    var last := |gs| - 1;
    var init := gs[..last];
    var c := GlyphBox(gs[last], dpi);
    if |init| == 0 {
      assert BoxOf(gs, dpi).value == c;
    } else {
      BoxOfTouches(init, dpi);
      var p := BoxOf(init, dpi).value;
      var b := BoxOf(gs, dpi).value;
      assert b == Box(RMin(p.minX, c.minX), RMin(p.minY, c.minY), RMax(p.maxX, c.maxX), RMax(p.maxY, c.maxY));
      var i0 :| 0 <= i0 < |init| && p.minX == GlyphBox(init[i0], dpi).minX;
      var i1 :| 0 <= i1 < |init| && p.minY == GlyphBox(init[i1], dpi).minY;
      var i2 :| 0 <= i2 < |init| && p.maxX == GlyphBox(init[i2], dpi).maxX;
      var i3 :| 0 <= i3 < |init| && p.maxY == GlyphBox(init[i3], dpi).maxY;
      assert init[i0] == gs[i0] && init[i1] == gs[i1] && init[i2] == gs[i2] && init[i3] == gs[i3];
      assert b.minX == GlyphBox(gs[if p.minX <= c.minX then i0 else last], dpi).minX;
      assert b.minY == GlyphBox(gs[if p.minY <= c.minY then i1 else last], dpi).minY;
      assert b.maxX == GlyphBox(gs[if p.maxX >= c.maxX then i2 else last], dpi).maxX;
      assert b.maxY == GlyphBox(gs[if p.maxY >= c.maxY then i3 else last], dpi).maxY;
    }
  }

  /** Appending a glyph extends the box by that glyph. */
  lemma BoxOfAppend(gs: seq<Glyph>, g: Glyph, dpi: real)
    requires dpi > 0.0
    ensures BoxOf(gs + [g], dpi) == Some(Extend(BoxOf(gs, dpi), g, dpi))
  {
    assert (gs + [g])[..|gs|] == gs;
  }

  /** Clipping never creates a box and never widens one: the clipped box
      lies within both the unclipped box and the clip area. */
  lemma ClipShrinks(b: Option<Box>, clipArea: Option<Rect>)
    ensures Clip(b, clipArea).Some? <==> b.Some?
    ensures clipArea.None? ==> Clip(b, clipArea) == b
    ensures b.Some? && clipArea.Some? ==>
      var c := Clip(b, clipArea).value;
      var (x0, y0, x1, y1) := IntoCorners(clipArea.value);
      b.value.minX <= c.minX && x0 <= c.minX && b.value.minY <= c.minY && y0 <= c.minY &&
      c.maxX <= b.value.maxX && c.maxX <= x1 && c.maxY <= b.value.maxY && c.maxY <= y1
  {
  }

  /** The quads are the rendered glyphs, in order: no more quads than
      glyphs, one for each glyph when the font renders every one, and the
      first glyph's quad, when it is rendered, is its screen rectangle and
      its texture rectangle each padded by half a pixel, with its entry's
      colour, depth and clip area. */
  lemma {:induction false} ComposedShape(gs: seq<Glyph>, dds: seq<TextDrawData>, render: (nat, real) -> Option<RectPx>)
    requires Indexed(gs, |dds|)
    ensures |Composed(gs, dds, render)| <= |gs|
    ensures (forall k :: 0 <= k < |gs| ==> render(gs[k].id, dds[gs[k].drawData].fontSize).Some?) ==>
      |Composed(gs, dds, render)| == |gs|
    ensures |gs| > 0 && render(gs[0].id, dds[gs[0].drawData].fontSize).Some? ==>
      var d := dds[gs[0].drawData];
      Composed(gs, dds, render)[0] ==
        Quad(Pad(gs[0].screenLocation), Pad(render(gs[0].id, d.fontSize).value), d.color, d.z, d.clipArea)
  {
    if |gs| > 0 {
      assert Indexed(gs[1..], |dds|) by {
        forall k | 0 <= k < |gs[1..]| ensures gs[1..][k].drawData < |dds| { assert gs[1..][k] == gs[k + 1]; }
      }
      ComposedShape(gs[1..], dds, render);
      if forall k :: 0 <= k < |gs| ==> render(gs[k].id, dds[gs[k].drawData].fontSize).Some? {
        forall k | 0 <= k < |gs[1..]|
          ensures render(gs[1..][k].id, dds[gs[1..][k].drawData].fontSize).Some?
        {
          assert gs[1..][k] == gs[k + 1];
        }
      }
    }
  }

  /** Padding grows a rectangle by half a pixel on every side and keeps
      its centre, and two padded rectangles differ by whole pixels, so the
      screen and texture rectangles keep the same fractional parts. */
  lemma PadHalfPixel(r: RectPx, t: RectPx)
    ensures var p := Pad(r);
      p.x == r.x as real - 0.5 && p.x + p.width == (r.x + r.width) as real + 0.5 &&
      p.y == r.y as real - 0.5 && p.y + p.height == (r.y + r.height) as real + 0.5 &&
      2.0 * p.x + p.width == (2 * r.x + r.width) as real
    ensures Pad(r).x - Pad(t).x == (r.x - t.x) as real && Pad(r).width - Pad(t).width == (r.width - t.width) as real
  {
  }

  // ---------------------------------------------------------------------
  // The renderer

  /** `TextRenderer`: the queued glyphs, their draw data, the DPI factor,
      and how many times the font was told to age its glyph cache. */
  class TextRenderer {
    const font: Font
    var glyphs: seq<Glyph>
    var drawDatas: seq<TextDrawData>
    var dpiFactor: real
    var expirations: nat

    ghost predicate Valid()
      reads this
    {
      LinesProgress(font) && dpiFactor > 0.0 && Indexed(glyphs, |drawDatas|)
    }

    /** `with_font8x8`: an empty queue at a DPI factor of one. */
    constructor (font: Font)
      requires LinesProgress(font)
      ensures Valid() && this.font == font
      ensures glyphs == [] && drawDatas == [] && dpiFactor == 1.0 && expirations == 0
    {
      this.font := font;
      glyphs := [];
      drawDatas := [];
      dpiFactor := 1.0;
      expirations := 0;
    }

    /** `set_dpi_factor`. */
    method SetDpiFactor(dpiFactor: real)
      requires Valid() && dpiFactor > 0.0
      modifies this`dpiFactor
      ensures Valid() && this.dpiFactor == dpiFactor
    {
      this.dpiFactor := dpiFactor;
    }

    /** The metric loop of `draw_text`: one font query per distinct
        character, in order of first appearance. */
    method CollectMetrics(text: seq<char>, fontSize: real) returns (metrics: map<char, Metric>, queried: seq<char>)
      ensures forall c :: c in metrics <==> c in text
      ensures forall c :: c in metrics ==> metrics[c] == MetricFor(font, fontSize, c)
      ensures forall c :: c in queried <==> c in text
      ensures forall a, b :: 0 <= a < b < |queried| ==> queried[a] != queried[b]
    {
      metrics := map[];
      queried := [];
      for i := 0 to |text|
        invariant forall c :: c in metrics <==> c in text[..i]
        invariant forall c :: c in metrics ==> metrics[c] == MetricFor(font, fontSize, c)
        invariant forall c :: c in queried <==> c in metrics
        invariant forall a, b :: 0 <= a < b < |queried| ==> queried[a] != queried[b]
      {
        var c := text[i];
        assert text[..i + 1] == text[..i] + [c];
        if c in metrics {
          continue;
        }
        var glyphId := font.glyphId(c);
        var size := font.metric(glyphId, fontSize);
        metrics := metrics[c := Metric(glyphId, size)];
        queried := queried + [c];
      }
      assert text[..|text|] == text;
    }

    /** One character of the inner loop of `draw_text`: the cursor moved
        by the advance from the previous character, and the glyph there. */
    method PlaceGlyph(c: char, prev: Option<char>, cx: int, y: int, fs: real, drawData: nat,
                      metrics: map<char, Metric>)
      returns (cx': int, glyph: Option<Glyph>)
      requires c in metrics && metrics[c] == MetricFor(font, fs, c)
      ensures cx' == NextX(font, fs, c, prev, cx)
      ensures glyph == Some(Glyph(Placed(MetricFor(font, fs, c).size, cx', y), drawData, font.glyphId(c)))
    {
      cx' := cx;
      glyph := None;
      if c in metrics {
        var metric := metrics[c];
        if prev.Some? {
          var advance := font.charAdvance(c, prev.value, fs);
          if advance.Some? {
            cx' := cx' + advance.value;
          }
        }
        glyph := Some(Glyph(Placed(metric.size, cx', y), drawData, metric.glyphId));
      }
    }

    /** The inner loop of `draw_text`: queues the glyphs of one line. */
    method QueueLine(line: seq<char>, x: int, y: int, fs: real, drawData: nat, metrics: map<char, Metric>)
      requires Memoised(metrics, font, fs, line)
      modifies this`glyphs
      ensures glyphs == old(glyphs) + LineGlyphs(font, fs, line, x, y, None, drawData)
    {
      var cx := x;
      var prev: Option<char> := None;
      ghost var whole := LineGlyphs(font, fs, line, x, y, None, drawData);
      ghost var lineAdded: seq<Glyph> := [];
      assert lineAdded + LineGlyphs(font, fs, line[0..], cx, y, prev, drawData) == whole by {
        assert line[0..] == line;
      }
      for i := 0 to |line|
        invariant glyphs == old(glyphs) + lineAdded
        invariant lineAdded + LineGlyphs(font, fs, line[i..], cx, y, prev, drawData) == whole
      {
        var c := line[i];
        QueueLineStep(font, fs, line, i, cx, y, prev, drawData, lineAdded, whole);
        var glyph;
        cx, glyph := PlaceGlyph(c, prev, cx, y, fs, drawData, metrics);
        if glyph.Some? {
          glyphs := glyphs + [glyph.value];
          lineAdded := lineAdded + [glyph.value];
        }
        prev := Some(c);
      }
      assert lineAdded + LineGlyphs(font, fs, line[|line|..], cx, y, prev, drawData) == lineAdded by {
        assert line[|line|..] == [];
      }
    }

    /** One pass of the line loop of `draw_text`: measures the next line,
        aligns it and queues its glyphs. */
    method QueueNextLine(left: seq<char>, baseX: int, y: int, fs: real, mw: Option<int>,
                         alignment: TextLayout.Alignment, drawData: nat, metrics: map<char, Metric>)
      returns (len: nat, ghost line: seq<Glyph>)
      requires LinesProgress(font) && |left| > 0
      requires Memoised(metrics, font, fs, left)
      modifies this`glyphs
      ensures len == font.lineLength(left, mw, fs).0 && 1 <= len <= |left|
      ensures line == LineGlyphs(font, fs, left[..len],
                LineStart(baseX, font.lineLength(left, mw, fs).1, mw, alignment), y, None, drawData)
      ensures glyphs == old(glyphs) + line
      ensures Memoised(metrics, font, fs, left[len..])
    {
      var width;
      len, width := font.lineLength(left, mw, fs).0, font.lineLength(left, mw, fs).1;
      var startX := baseX;
      if mw.Some? {
        startX := TextLayout.GetLineStartX(baseX, width, mw.value, alignment);
      }
      MemoisedSplit(metrics, font, fs, left, len);
      QueueLine(left[..len], startX, y, fs, drawData, metrics);
      line := LineGlyphs(font, fs, left[..len], startX, y, None, drawData);
    }

    /** The line loop of `draw_text`: queues the glyphs of every line. */
    method QueueText(text: seq<char>, baseX: int, baseY: int, fs: real, mw: Option<int>,
                     alignment: TextLayout.Alignment, drawData: nat, metrics: map<char, Metric>)
      requires LinesProgress(font)
      requires Memoised(metrics, font, fs, text)
      modifies this`glyphs
      ensures glyphs == old(glyphs) + TextGlyphs(font, fs, mw, alignment, baseX, baseY, text, drawData)
    {
      var lineHeight := font.lineHeight(fs);
      var cy := baseY;
      var left := text;
      ghost var whole := glyphs + TextGlyphs(font, fs, mw, alignment, baseX, baseY, text, drawData);
      while |left| > 0
        invariant glyphs + TextGlyphs(font, fs, mw, alignment, baseX, cy, left, drawData) == whole
        invariant Memoised(metrics, font, fs, left)
        decreases |left|
      {
        ghost var before := glyphs;
        var len;
        ghost var line;
        len, line := QueueNextLine(left, baseX, cy, fs, mw, alignment, drawData, metrics);
        QueueTextStep(font, fs, mw, alignment, baseX, cy, left, drawData, before, whole, len, line,
                      glyphs, cy + lineHeight, left[len..]);
        left := left[len..];
        cy := cy + lineHeight;
      }
      assert glyphs + [] == glyphs;
    }

    /** The minimum and maximum corners of `draw_text`, in logical pixels,
        over the glyphs it queued. */
    method Bounds(gs: seq<Glyph>, dpi: real) returns (box: Option<Box>)
      requires dpi > 0.0
      ensures box == BoxOf(gs, dpi)
    {
      box := None;
      for i := 0 to |gs|
        invariant box == BoxOf(gs[..i], dpi)
      {
        assert gs[..i + 1][..i] == gs[..i];
        box := Some(Extend(box, gs[i], dpi));
      }
      assert gs[..|gs|] == gs;
    }

    /** The end of `draw_text`: the box shrunk to the clip area, and `None`
        while it still holds the infinite sentinels. */
    method ClipBox(box: Option<Box>, clipArea: Option<Rect>) returns (res: Option<Rect>)
      ensures res == BoxToRect(Clip(box, clipArea))
    {
      var b := box;
      if clipArea.Some? {
        var (x0, y0, x1, y1) := IntoCorners(clipArea.value);
        if b.Some? {
          b := Some(Box(RMax(b.value.minX, x0), RMax(b.value.minY, y0),
                        RMin(b.value.maxX, x1), RMin(b.value.maxY, y1)));
        }
      }
      if b.None? {
        res := None;
      } else {
        var v := b.value;
        res := Some(RectFromTuple((v.minX, v.minY, v.maxX - v.minX, v.maxY - v.minY)));
      }
    }

    /** `draw_text`: queues one draw data entry and one glyph per character
        of a non-empty text, and returns their bounding box, clipped. */
    method DrawText(text: seq<char>, x: real, y: real, z: real, fontSize: real,
                    alignment: TextLayout.Alignment, color: (real, real, real, real),
                    maxLineWidth: Option<real>, clipArea: Option<Rect>)
      returns (res: Option<Rect>)
      requires Valid()
      modifies this`glyphs, this`drawDatas
      ensures Valid()
      ensures |text| == 0 ==> res.None? && glyphs == old(glyphs) && drawDatas == old(drawDatas)
      ensures |text| > 0 ==> drawDatas == old(drawDatas) + [TextDrawData(clipArea, color, Physical(fontSize, dpiFactor), z)]
      ensures |text| > 0 ==>
        glyphs == old(glyphs) + Layout(font, dpiFactor, text, x, y, fontSize, alignment, maxLineWidth, |old(drawDatas)|)
      ensures |text| > 0 ==>
        res == BoxToRect(Clip(BoxOf(Layout(font, dpiFactor, text, x, y, fontSize, alignment, maxLineWidth,
                                           |old(drawDatas)|), dpiFactor), clipArea))
    {
      if |text| == 0 {
        return None;
      }
      var dpi := dpiFactor;
      var baseX, baseY := Trunc(Physical(x, dpi)), Trunc(Physical(y, dpi));
      var mw := MaxWidthPx(maxLineWidth, dpi);
      var fs := Physical(fontSize, dpi);

      var drawData := |drawDatas|;
      var queued := |glyphs|;
      drawDatas := drawDatas + [TextDrawData(clipArea, color, fs, z)];

      var metrics, _ := CollectMetrics(text, fs);
      assert Memoised(metrics, font, fs, text) by {
        forall k | 0 <= k < |text| ensures text[k] in metrics { assert text[k] in text; }
      }

      QueueText(text, baseX, baseY, fs, mw, alignment, drawData, metrics);
      var box := Bounds(glyphs[queued..], dpi);
      assert glyphs[queued..] == TextGlyphs(font, fs, mw, alignment, baseX, baseY, text, drawData);
      TextGlyphsIndexed(font, fs, mw, alignment, baseX, baseY, text, drawData);
      assert Indexed(glyphs, |drawDatas|) by {
        forall k | 0 <= k < |glyphs| ensures glyphs[k].drawData < |drawDatas| {
          if k < |old(glyphs)| {
            assert glyphs[k] == old(glyphs)[k];
          }
        }
      }
      res := ClipBox(box, clipArea);
    }

    /** `compose_draw_call`: one quad per glyph the font renders, then an
        empty queue and one request to age the font's glyph cache.
        `render` stands for the font's `render_glyph`. */
    method ComposeDrawCall(render: (nat, real) -> Option<RectPx>) returns (quads: seq<Quad>)
      requires Valid()
      modifies this`glyphs, this`drawDatas, this`expirations
      ensures Valid()
      ensures quads == Composed(old(glyphs), old(drawDatas), render)
      ensures glyphs == [] && drawDatas == [] && expirations == old(expirations) + 1
    {
      quads := [];
      for i := 0 to |glyphs|
        invariant quads + Composed(glyphs[i..], drawDatas, render) == Composed(glyphs, drawDatas, render)
      {
        var glyph := glyphs[i];
        var data := drawDatas[glyph.drawData];
        assert glyphs[i..][1..] == glyphs[i + 1..];
        var screen := Pad(glyph.screenLocation);
        var rendered := render(glyph.id, data.fontSize);
        if rendered.None? {
          continue;
        }
        quads := quads + [Quad(screen, Pad(rendered.value), data.color, data.z, data.clipArea)];
      }
      glyphs := [];
      drawDatas := [];
      expirations := expirations + 1;
    }
  }

  /** `draw_text` answers `None` exactly for the empty text: every
      character queues a glyph, so a non-empty text always has a box. */
  lemma DrawTextBoxIffNonEmpty(font: Font, fontSize: real, maxWidth: Option<int>, alignment: TextLayout.Alignment,
                               baseX: int, y: int, text: seq<char>, drawData: nat, dpi: real, clipArea: Option<Rect>)
    requires LinesProgress(font) && dpi > 0.0
    ensures var added := TextGlyphs(font, fontSize, maxWidth, alignment, baseX, y, text, drawData);
      BoxToRect(Clip(BoxOf(added, dpi), clipArea)).Some? <==> |text| > 0
  {
    var added := TextGlyphs(font, fontSize, maxWidth, alignment, baseX, y, text, drawData);
    TextGlyphsShape(font, fontSize, maxWidth, alignment, baseX, y, text, drawData);
    BoxOfHolds(added, dpi);
    ClipShrinks(BoxOf(added, dpi), clipArea);
  }
}
