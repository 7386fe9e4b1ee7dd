/**
 * Line breaking of `src/text/layout.rs`: how many glyphs of a run fit on
 * one line, where the line breaks, and where it starts for each alignment.
 *
 * The font is abstract: two total functions, the advance between a pair of
 * glyphs at a cursor and the width of a glyph's metric at a cursor.
 */
module TextLayout {
  import opened Wrappers
  import opened RustInt

  datatype Alignment = Left | Right | Center

  /** Characters that end a line when met. */
  const LineBreakers: set<char> :=
    {'\U{A}', '\U{B}', '\U{C}', '\U{D}', '\U{85}', '\U{2028}', '\U{2029}'}

  /** Characters after which a line can be broken cleanly. */
  const WordBreakers: set<char> :=
    {'\U{9}', '\U{20}', '\U{1680}', '\U{2000}', '\U{2001}', '\U{2002}', '\U{2003}',
     '\U{2004}', '\U{2005}', '\U{2006}', '\U{2008}', '\U{2009}', '\U{200A}', '\U{205F}',
     '\U{3000}', '\U{180E}', '\U{200B}', '\U{200C}', '\U{200D}'}

  predicate CanBreak(c: char)
  {
    c in WordBreakers || c in LineBreakers
  }

  predicate MustBreak(c: char)
  {
    c in LineBreakers
  }

  /** Every character that must break a line may break one, and a space may
      break a line without having to. */
  lemma MustBreakCanBreak(c: char)
    ensures MustBreak(c) ==> CanBreak(c)
    ensures CanBreak(' ') && !MustBreak(' ') && MustBreak('\n') && !CanBreak('a')
  {
  }

  /** `get_line_start_x`, with Rust's truncating `/ 2`. */
  function GetLineStartX(baseX: int, lineWidth: int, maxLineWidth: int, alignment: Alignment): (x: int)
    ensures alignment == Left ==> x == baseX
    ensures alignment == Right ==> x + lineWidth == baseX + maxLineWidth
  {
    match alignment
    case Left => baseX
    case Center => baseX + Div(maxLineWidth - lineWidth, 2)
    case Right => baseX + (maxLineWidth - lineWidth)
  }

  /** A centred line leaves the same room on both sides, give or take the
      one pixel the truncating division drops, and that pixel goes to the
      side the line overflows towards. */
  lemma CenterIsCentered(baseX: int, lineWidth: int, maxLineWidth: int)
    ensures var x := GetLineStartX(baseX, lineWidth, maxLineWidth, Center);
      var leftRoom := x - baseX;
      var rightRoom := (baseX + maxLineWidth) - (x + lineWidth);
      (lineWidth <= maxLineWidth ==> 0 <= rightRoom - leftRoom <= 1) &&
      (lineWidth > maxLineWidth ==> -1 <= rightRoom - leftRoom <= 0)
  {
    var d := maxLineWidth - lineWidth;
    var q := Div(d, 2);
    if d >= 0 {
      assert 0 <= d - q * 2 < 2;
    } else {
      assert -2 < d - q * 2 <= 0;
    }
  }

  // ---------------------------------------------------------------------
  // The font, and the width each glyph adds to the line

  datatype Cursor = Cursor(x: int, y: int)
  datatype Advance = Advance(advanceX: int, advanceY: int)

  function Moved(c: Cursor, a: Advance): Cursor
  {
    Cursor(c.x + a.advanceX, c.y + a.advanceY)
  }

  /** The two font queries the line breaker makes. */
  datatype Font = Font(advance: (nat, nat, Cursor, int) -> Advance,
                       metricWidth: (nat, Cursor, int) -> int)

  /** One step of the loop's measuring: the width the glyph `id` adds after
      `prev`, and the cursor afterwards. */
  function StepWidth(font: Font, prev: Option<nat>, id: nat, cursor: Cursor, fontSize: int): (int, Cursor)
  {
    match prev
    case None => (font.metricWidth(id, cursor, fontSize), cursor)
    case Some(p) =>
      var a := font.advance(p, id, cursor, fontSize);
      var c := Moved(cursor, a);
      (a.advanceX - font.metricWidth(p, c, fontSize) + font.metricWidth(id, c, fontSize), c)
  }

  /** The width of every glyph of the run, measured in order. */
  function Widths(font: Font, prev: Option<nat>, cursor: Cursor, fontSize: int, glyphs: seq<(char, nat)>)
    : (ws: seq<int>)
    ensures |ws| == |glyphs|
    ensures |glyphs| > 0 ==> ws[0] == StepWidth(font, prev, glyphs[0].1, cursor, fontSize).0
    decreases |glyphs|
  {
    if |glyphs| == 0 then []
    else
      var (w, c) := StepWidth(font, prev, glyphs[0].1, cursor, fontSize);
      [w] + Widths(font, Some(glyphs[0].1), c, fontSize, glyphs[1..])
  }

  /** One glyph of the measuring loop: the widths still to come split
      into that glyph's width and the widths after it. */
  lemma WidthsStep(font: Font, prev: Option<nat>, cursor: Cursor, fontSize: int, glyphs: seq<(char, nat)>,
                   i: nat, ws: seq<int>, w: int, moved: Cursor)
    requires i < |glyphs| && |ws| == |glyphs|
    requires Widths(font, prev, cursor, fontSize, glyphs[i..]) == ws[i..]
    requires (w, moved) == StepWidth(font, prev, glyphs[i].1, cursor, fontSize)
    ensures ws[i] == w && Widths(font, Some(glyphs[i].1), moved, fontSize, glyphs[i + 1..]) == ws[i + 1..]
  {
    assert glyphs[i..][1..] == glyphs[i + 1..];
    assert ws[i..][1..] == ws[i + 1..];
  }

  function Chars(glyphs: seq<(char, nat)>): (cs: seq<char>)
    ensures |cs| == |glyphs| && forall i :: 0 <= i < |glyphs| ==> cs[i] == glyphs[i].0
  {
    seq(|glyphs|, i requires 0 <= i < |glyphs| => glyphs[i].0)
  }

  // ---------------------------------------------------------------------
  // The loop of get_line_length_and_width

  /** `(len, printable_len, total_width)`. */
  datatype LineBreak = LineBreak(len: nat, printable: nat, total: int)

  /** The loop of `get_line_length_and_width` from glyph `i` on, with the
      running total width, the width since the last break opportunity and
      the length up to and including that opportunity. `popTwice` chooses
      the overflow-after-a-break branch as written (which also subtracts the
      overflowing glyph's width) or without that second subtraction. */
  function Scan(cs: seq<char>, ws: seq<int>, maxWidth: Option<int>, popTwice: bool,
                i: nat, total: int, sinceBreak: int, breakLen: Option<nat>): LineBreak
    requires |cs| == |ws| && i <= |cs|
    decreases |cs| - i
  {
    if i == |cs| then LineBreak(i, i, total)
    else
      var len := i + 1;
      var width := ws[i];
      var total1 := total + width;
      var breakLen1 := if CanBreak(cs[i]) then Some(len) else breakLen;
      var since0 := if CanBreak(cs[i]) then 0 else sinceBreak;
      var since1 := if breakLen1.Some? then since0 + width else since0;
      if MustBreak(cs[i]) then LineBreak(len, len - 1, total1 - width)
      else if maxWidth.Some? && total1 > maxWidth.value then
        if breakLen1.Some? then
          var popped := total1 - since1;
          LineBreak(breakLen1.value, breakLen1.value, if popTwice then popped - width else popped)
        else if len > 1 then LineBreak(len - 1, len - 1, total1 - width)
        else LineBreak(len, len, total1)
      else Scan(cs, ws, maxWidth, popTwice, i + 1, total1, since1, breakLen1)
  }

  /** `get_line_length_and_width` exactly as written. */
  function LineLengthAndWidthAsWritten(cs: seq<char>, ws: seq<int>, maxWidth: Option<int>): LineBreak
    requires |cs| == |ws|
  {
    Scan(cs, ws, maxWidth, true, 0, 0, 0, None)
  }

  /** `get_line_length_and_width` without popping the overflowing glyph a
      second time. */
  function LineLengthAndWidth(cs: seq<char>, ws: seq<int>, maxWidth: Option<int>): LineBreak
    requires |cs| == |ws|
  {
    Scan(cs, ws, maxWidth, false, 0, 0, 0, None)
  }

  // ---------------------------------------------------------------------
  // A declarative reference for the line break

  function Sum(ws: seq<int>): int
  {
    if |ws| == 0 then 0 else Sum(ws[..|ws| - 1]) + ws[|ws| - 1]
  }

  /** The first glyph from `i` on at which the loop stops: a line breaker,
      or the glyph with which the widths so far exceed the maximum. */
  function FirstStop(cs: seq<char>, ws: seq<int>, maxWidth: Option<int>, i: nat): (k: Option<nat>)
    requires |cs| == |ws| && i <= |cs|
    ensures k.Some? ==> i <= k.value < |cs|
    decreases |cs| - i
  {
    if i == |cs| then None
    else if MustBreak(cs[i]) || (maxWidth.Some? && Sum(ws[..i + 1]) > maxWidth.value) then Some(i)
    else FirstStop(cs, ws, maxWidth, i + 1)
  }

  /** The last break opportunity among the first `n` characters. */
  function LastBreakBefore(cs: seq<char>, n: nat): (j: Option<nat>)
    requires n <= |cs|
    ensures j.Some? ==> j.value < n && CanBreak(cs[j.value])
    ensures j.None? ==> forall k :: 0 <= k < n ==> !CanBreak(cs[k])
  {
    if n == 0 then None
    else if CanBreak(cs[n - 1]) then Some(n - 1)
    else LastBreakBefore(cs, n - 1)
  }

  /** What the line is, stated without the loop: all glyphs if nothing
      stops it; up to a line breaker, which is counted but not printable;
      on overflow, up to and including the last break opportunity, with the
      width of the glyphs before it; on overflow with no opportunity, the
      glyphs before the overflowing one, or that one alone if it is the
      first. */
  function LineBreakRef(cs: seq<char>, ws: seq<int>, maxWidth: Option<int>): LineBreak
    requires |cs| == |ws|
  {
    match FirstStop(cs, ws, maxWidth, 0)
    case None => LineBreak(|cs|, |cs|, Sum(ws))
    case Some(k) =>
      if MustBreak(cs[k]) then LineBreak(k + 1, k, Sum(ws[..k]))
      else match LastBreakBefore(cs, k + 1)
        case Some(j) => LineBreak(j + 1, j + 1, Sum(ws[..j]))
        case None => if k >= 1 then LineBreak(k, k, Sum(ws[..k])) else LineBreak(1, 1, Sum(ws[..1]))
  }

  lemma SumStep(ws: seq<int>, i: nat)
    requires i < |ws|
    ensures Sum(ws[..i + 1]) == Sum(ws[..i]) + ws[i]
  {
    assert ws[..i + 1][..i] == ws[..i];
  }

  /** The loop state after `i` glyphs that did not stop it. */
  ghost predicate ScanState(cs: seq<char>, ws: seq<int>, maxWidth: Option<int>,
                            i: nat, total: int, sinceBreak: int, breakLen: Option<nat>)
    requires |cs| == |ws| && i <= |cs|
  {
    FirstStop(cs, ws, maxWidth, 0) == FirstStop(cs, ws, maxWidth, i) &&
    total == Sum(ws[..i]) &&
    breakLen == (match LastBreakBefore(cs, i) case None => None case Some(j) => Some(j + 1)) &&
    (breakLen.Some? ==> 1 <= breakLen.value <= i && sinceBreak == Sum(ws[..i]) - Sum(ws[..breakLen.value - 1]))
  }

  /** A glyph that does not stop the loop moves it to the next state. */
  lemma ScanStepState(cs: seq<char>, ws: seq<int>, maxWidth: Option<int>,
                      i: nat, total: int, sinceBreak: int, breakLen: Option<nat>,
                      total1: int, since1: int, breakLen1: Option<nat>)
    requires |cs| == |ws| && i < |cs|
    requires ScanState(cs, ws, maxWidth, i, total, sinceBreak, breakLen)
    requires FirstStop(cs, ws, maxWidth, i) != Some(i)
    requires total1 == total + ws[i]
    requires breakLen1 == if CanBreak(cs[i]) then Some(i + 1) else breakLen
    requires since1 == (if CanBreak(cs[i]) then 0 else sinceBreak) + (if breakLen1.Some? then ws[i] else 0)
    ensures !MustBreak(cs[i]) && !(maxWidth.Some? && total1 > maxWidth.value)
    ensures ScanState(cs, ws, maxWidth, i + 1, total1, since1, breakLen1)
  {
    SumStep(ws, i);
    assert FirstStop(cs, ws, maxWidth, i) == FirstStop(cs, ws, maxWidth, i + 1);
    if CanBreak(cs[i]) {
      assert LastBreakBefore(cs, i + 1) == Some(i);
    } else {
      assert LastBreakBefore(cs, i + 1) == LastBreakBefore(cs, i);
    }
  }

  /** The glyph that stops the loop gives the reference line break. */
  lemma ScanStopIsRef(cs: seq<char>, ws: seq<int>, maxWidth: Option<int>,
                      i: nat, total: int, sinceBreak: int, breakLen: Option<nat>)
    requires |cs| == |ws| && i < |cs|
    requires ScanState(cs, ws, maxWidth, i, total, sinceBreak, breakLen)
    requires FirstStop(cs, ws, maxWidth, i) == Some(i)
    ensures Scan(cs, ws, maxWidth, false, i, total, sinceBreak, breakLen) == LineBreakRef(cs, ws, maxWidth)
  {
    SumStep(ws, i);
    var breakLen1 := if CanBreak(cs[i]) then Some(i + 1) else breakLen;
    if !MustBreak(cs[i]) && breakLen1.Some? {
      assert LastBreakBefore(cs, i + 1) == Some(breakLen1.value - 1);
    }
  }

  lemma {:induction false} ScanIsRef(cs: seq<char>, ws: seq<int>, maxWidth: Option<int>,
                                     i: nat, total: int, sinceBreak: int, breakLen: Option<nat>)
    requires |cs| == |ws| && i <= |cs|
    requires ScanState(cs, ws, maxWidth, i, total, sinceBreak, breakLen)
    ensures Scan(cs, ws, maxWidth, false, i, total, sinceBreak, breakLen) == LineBreakRef(cs, ws, maxWidth)
    decreases |cs| - i
  {
    if i == |cs| {
      assert ws[..i] == ws;
    } else if FirstStop(cs, ws, maxWidth, i) == Some(i) {
      ScanStopIsRef(cs, ws, maxWidth, i, total, sinceBreak, breakLen);
    } else {
      var breakLen1 := if CanBreak(cs[i]) then Some(i + 1) else breakLen;
      var since1 := (if CanBreak(cs[i]) then 0 else sinceBreak) + (if breakLen1.Some? then ws[i] else 0);
      ScanStepState(cs, ws, maxWidth, i, total, sinceBreak, breakLen, total + ws[i], since1, breakLen1);
      ScanNext(cs, ws, maxWidth, false, i, total, sinceBreak, breakLen, total + ws[i], since1, breakLen1);
      ScanIsRef(cs, ws, maxWidth, i + 1, total + ws[i], since1, breakLen1);
    }
  }

  /** The loop computes the reference line break. */
  lemma LineLengthAndWidthIsRef(cs: seq<char>, ws: seq<int>, maxWidth: Option<int>)
    requires |cs| == |ws|
    ensures LineLengthAndWidth(cs, ws, maxWidth) == LineBreakRef(cs, ws, maxWidth)
  {
    ScanIsRef(cs, ws, maxWidth, 0, 0, 0, None);
  }

  /** Every line consumes at least one glyph of a non-empty run and no more
      than the run; only a line breaker is left unprinted. Both variants
      agree on the lengths. */
  lemma {:induction false} ScanLengths(cs: seq<char>, ws: seq<int>, maxWidth: Option<int>, popTwice: bool,
                                       i: nat, total: int, sinceBreak: int, breakLen: Option<nat>)
    requires |cs| == |ws| && i <= |cs|
    requires breakLen.Some? ==> 1 <= breakLen.value <= i
    ensures var r := Scan(cs, ws, maxWidth, popTwice, i, total, sinceBreak, breakLen);
      r.len <= |cs| && (|cs| > 0 ==> 1 <= r.len) &&
      (r.printable == r.len || (r.printable + 1 == r.len && MustBreak(cs[r.printable]))) &&
      r.len == Scan(cs, ws, maxWidth, !popTwice, i, total, sinceBreak, breakLen).len &&
      r.printable == Scan(cs, ws, maxWidth, !popTwice, i, total, sinceBreak, breakLen).printable
    decreases |cs| - i
  {
    if i < |cs| {
      var breakLen1 := if CanBreak(cs[i]) then Some(i + 1) else breakLen;
      var since0 := if CanBreak(cs[i]) then 0 else sinceBreak;
      var since1 := if breakLen1.Some? then since0 + ws[i] else since0;
      ScanLengths(cs, ws, maxWidth, popTwice, i + 1, total + ws[i], since1, breakLen1);
    }
  }

  lemma LineLengthBounds(cs: seq<char>, ws: seq<int>, maxWidth: Option<int>)
    requires |cs| == |ws|
    ensures var r := LineLengthAndWidth(cs, ws, maxWidth);
      r.len <= |cs| && (|cs| > 0 ==> 1 <= r.len) &&
      (r.printable == r.len || (r.printable + 1 == r.len && MustBreak(cs[r.printable])))
    ensures LineLengthAndWidthAsWritten(cs, ws, maxWidth).len == LineLengthAndWidth(cs, ws, maxWidth).len
    ensures LineLengthAndWidthAsWritten(cs, ws, maxWidth).printable == LineLengthAndWidth(cs, ws, maxWidth).printable
  {
    ScanLengths(cs, ws, maxWidth, false, 0, 0, 0, None);
  }

  /** With no maximum width and no line breaker the whole run is one line. */
  lemma {:induction false} NoBreakTakesAll(cs: seq<char>, ws: seq<int>, i: nat)
    requires |cs| == |ws| && i <= |cs|
    requires forall k :: 0 <= k < |cs| ==> !MustBreak(cs[k])
    ensures FirstStop(cs, ws, None, i).None?
    ensures i == 0 ==> LineLengthAndWidth(cs, ws, None) == LineBreak(|cs|, |cs|, Sum(ws))
    decreases |cs| - i
  {
    if i < |cs| {
      NoBreakTakesAll(cs, ws, i + 1);
    }
    if i == 0 {
      LineLengthAndWidthIsRef(cs, ws, None);
    }
  }

  /** Letters do not break a line; a space may. */
  lemma SampleBreaks()
    ensures !CanBreak('a') && !MustBreak('a') && !MustBreak('b') && CanBreak(' ') && !MustBreak(' ')
  {
  }

  /** As written, an overflow after a break opportunity also subtracts the
      overflowing glyph's width: for "a bc" with every glyph 10 wide and a
      maximum of 25, the line is "a " and its width should be that of "a",
      10, but is 0. */
  lemma OverflowAfterBreakPopsTwice()
    ensures LineLengthAndWidth(['a', ' ', 'b', 'c'], [10, 10, 10, 10], Some(25)) == LineBreak(2, 2, 10)
    ensures LineLengthAndWidthAsWritten(['a', ' ', 'b', 'c'], [10, 10, 10, 10], Some(25)) == LineBreak(2, 2, 0)
  {
    var cs, ws := ['a', ' ', 'b', 'c'], [10, 10, 10, 10];
    SampleBreaks();
    ScanNext(cs, ws, Some(25), false, 0, 0, 0, None, 10, 0, None);
    ScanNext(cs, ws, Some(25), false, 1, 10, 0, None, 20, 10, Some(2));
    ScanNext(cs, ws, Some(25), true, 0, 0, 0, None, 10, 0, None);
    ScanNext(cs, ws, Some(25), true, 1, 10, 0, None, 20, 10, Some(2));
  }

  // ---------------------------------------------------------------------
  // The function itself

  /** The glyph that does not stop the loop passes it on to the next
      glyph with the updated running widths. */
  lemma ScanNext(cs: seq<char>, ws: seq<int>, maxWidth: Option<int>, popTwice: bool,
                 i: nat, total: int, sinceBreak: int, breakLen: Option<nat>,
                 total1: int, since1: int, breakLen1: Option<nat>)
    requires |cs| == |ws| && i < |cs|
    requires total1 == total + ws[i]
    requires breakLen1 == if CanBreak(cs[i]) then Some(i + 1) else breakLen
    requires since1 == (if CanBreak(cs[i]) then 0 else sinceBreak) + (if breakLen1.Some? then ws[i] else 0)
    requires !MustBreak(cs[i]) && !(maxWidth.Some? && total1 > maxWidth.value)
    ensures Scan(cs, ws, maxWidth, popTwice, i, total, sinceBreak, breakLen)
         == Scan(cs, ws, maxWidth, popTwice, i + 1, total1, since1, breakLen1)
  {
  }

  /** The measuring at the top of the loop: the width one glyph adds after
      the previous one, and the cursor moved by their advance. */
  method MeasureGlyph(font: Font, previousId: Option<nat>, glyphId: nat, cursor: Cursor, fontSize: int)
    returns (width: int, cur: Cursor)
    ensures (width, cur) == StepWidth(font, previousId, glyphId, cursor, fontSize)
  {
    cur := cursor;
    width := 0;
    if previousId.Some? {
      var a := font.advance(previousId.value, glyphId, cur, fontSize);
      cur := Moved(cur, a);
      width := width + a.advanceX - font.metricWidth(previousId.value, cur, fontSize);
    }
    width := width + font.metricWidth(glyphId, cur, fontSize);
  }

  /** `get_line_length_and_width`: measures the glyphs in order, asking the
      font for advances and metrics, until a line breaker or an overflow. */
  method GetLineLengthAndWidth(font: Font, cursor: Cursor, fontSize: int, maxWidth: Option<int>,
                               glyphs: seq<(char, nat)>)
    returns (len: nat, printableLen: nat, totalWidth: int)
    ensures LineBreak(len, printableLen, totalWidth)
         == LineLengthAndWidth(Chars(glyphs), Widths(font, None, cursor, fontSize, glyphs), maxWidth)
  {
    ghost var cs := Chars(glyphs);
    ghost var ws := Widths(font, None, cursor, fontSize, glyphs);
    var cur := cursor;
    totalWidth := 0;
    var widthSinceCanBreak := 0;
    var previousId: Option<nat> := None;
    len := 0;
    var canBreakLen: Option<nat> := None;
    while len < |glyphs|
      invariant len <= |glyphs|
      invariant Widths(font, previousId, cur, fontSize, glyphs[len..]) == ws[len..]
      invariant Scan(cs, ws, maxWidth, false, len, totalWidth, widthSinceCanBreak, canBreakLen)
             == LineLengthAndWidth(cs, ws, maxWidth)
    {
      var (c, glyphId) := glyphs[len];
      ghost var i, total, since, breakLen, before := len, totalWidth, widthSinceCanBreak, canBreakLen, cur;
      len := len + 1;
      var width;
      width, cur := MeasureGlyph(font, previousId, glyphId, cur, fontSize);
      WidthsStep(font, previousId, before, fontSize, glyphs, i, ws, width, cur);
      assert c == cs[i];
      totalWidth := totalWidth + width;
      previousId := Some(glyphId);

      if CanBreak(c) {
        canBreakLen := Some(len);
        widthSinceCanBreak := 0;
      }
      if canBreakLen.Some? {
        widthSinceCanBreak := widthSinceCanBreak + width;
      }

      if MustBreak(c) {
        totalWidth := totalWidth - width;
        return len, len - 1, totalWidth;
      } else if maxWidth.Some? {
        if totalWidth > maxWidth.value {
          if canBreakLen.Some? {
            totalWidth := totalWidth - widthSinceCanBreak;
            len := canBreakLen.value;
          } else if len > 1 {
            totalWidth := totalWidth - width;
            len := len - 1;
          }
          return len, len, totalWidth;
        }
      }
      ScanNext(cs, ws, maxWidth, false, i, total, since, breakLen, totalWidth, widthSinceCanBreak, canBreakLen);
    }
    return len, len, totalWidth;
  }
}
