/**
 * The placeholder text renderer of `src/text_dummy.rs`, used when no font
 * backend is compiled in: every character is a box half as wide as the
 * font size, lines wrap at whitespace, and queued glyphs become untextured
 * quads. Sizes and positions are `f32` in the source and reals here.
 */
module TextDummy {
  import opened Wrappers
  import opened RustInt
  import TextLayout

  type Corners = (real, real, real, real)
  type Color = (real, real, real, real)

  datatype RectF = RectF(x: real, y: real, w: real, h: real)
  datatype Position = Position(x: real, y: real)
  datatype Glyph = Glyph(position: Position, size: RectF, z: real, drawData: nat)
  datatype TextDrawData = TextDrawData(clipArea: Option<Corners>, color: Color)

  /** The per-call map from characters to their glyph template. */
  type Metrics = map<char, Glyph>

  /** Rust's `char::is_whitespace`: the Unicode White_Space property. */
  predicate IsWhitespace(c: char)
  {
    '\U{9}' <= c <= '\U{D}' || c == '\U{20}' || c == '\U{85}' || c == '\U{A0}' || c == '\U{1680}' ||
    '\U{2000}' <= c <= '\U{200A}' || c == '\U{2028}' || c == '\U{2029}' || c == '\U{202F}' ||
    c == '\U{205F}' || c == '\U{3000}'
  }

  /** Every character of `s` has an entry in `metrics`. */
  predicate AllIn(metrics: Metrics, s: seq<char>)
  {
    forall k :: 0 <= k < |s| ==> s[k] in metrics
  }

  // ---------------------------------------------------------------------
  // Metrics and widths

  /** `get_metrics`: a box half the font size wide and the font size high. */
  function GetMetrics(fontSize: real): (r: RectF)
    ensures r.x == 0.0 && r.y == 0.0 && r.w * 2.0 == fontSize && r.h == fontSize
  {
    RectF(0.0, 0.0, fontSize / 2.0, fontSize)
  }

  /** `get_char_width`: the metric's width plus two; the unused previous
      character is not a parameter. The source panics for a character
      without a metric, and every method that calls this requires its text
      to be covered by the metrics. The line-breaking and queueing
      functions below are defined for every text; the zero they use for a
      character without a metric is never reached from those methods. */
  function CharWidth(metrics: Metrics, c: char): (w: real)
    ensures c in metrics ==> w == metrics[c].size.w + 2.0
  {
    if c in metrics then metrics[c].size.w + 2.0 else 0.0
  }

  /** The glyph template of `c`, extended to every character in the same way. */
  function Template(metrics: Metrics, c: char): (g: Glyph)
    ensures c in metrics ==> g == metrics[c]
  {
    if c in metrics then metrics[c] else Glyph(Position(0.0, 0.0), RectF(0.0, 0.0, 0.0, 0.0), 0.0, 0)
  }

  /** The summed widths of the characters of `s`. */
  function Widths(metrics: Metrics, s: seq<char>): real
  {
    if |s| == 0 then 0.0 else CharWidth(metrics, s[0]) + Widths(metrics, s[1..])
  }

  /** Widths add up character by character from the left as well. */
  lemma {:induction false} WidthsSnoc(metrics: Metrics, s: seq<char>, c: char)
    ensures Widths(metrics, s + [c]) == Widths(metrics, s) + CharWidth(metrics, c)
  {
    if |s| > 0 {
      assert (s + [c])[1..] == s[1..] + [c];
      WidthsSnoc(metrics, s[1..], c);
    }
  }

  /** A covered text's prefixes are covered. */
  lemma AllInTake(metrics: Metrics, s: seq<char>, n: nat)
    requires AllIn(metrics, s) && n <= |s|
    ensures AllIn(metrics, s[..n])
  {
  }

  /** The glyph template `draw_text` stores for every character. */
  function Prototype(fontSize: real, z: real, drawData: nat): Glyph
  {
    Glyph(Position(0.0, 0.0), GetMetrics(fontSize), z, drawData)
  }

  /** The metrics map `draw_text` builds for `text`, a character at a
      time: a character already in the map is skipped, any other gets the
      template. */
  function MetricsFor(text: seq<char>, fontSize: real, z: real, drawData: nat): Metrics
    decreases |text|
  {
    if |text| == 0 then map[]
    else
      var m := MetricsFor(text[..|text| - 1], fontSize, z, drawData);
      var c := text[|text| - 1];
      if c in m then m else m[c := Prototype(fontSize, z, drawData)]
  }

  /** The map holds exactly the characters of the text, each with the
      template. */
  lemma {:induction false} MetricsForSpec(text: seq<char>, fontSize: real, z: real, drawData: nat)
    ensures forall c :: c in MetricsFor(text, fontSize, z, drawData) <==> c in text
    ensures forall c :: c in MetricsFor(text, fontSize, z, drawData) ==> MetricsFor(text, fontSize, z, drawData)[c] == Prototype(fontSize, z, drawData)
    decreases |text|
  {
    if |text| > 0 {
      var prefix := text[..|text| - 1];
      MetricsForSpec(prefix, fontSize, z, drawData);
      assert text == prefix + [text[|text| - 1]];
    }
  }

  /** The map covers the text and holds the template for every character. */
  lemma MetricsForCall(text: seq<char>, fontSize: real, z: real, drawData: nat)
    ensures var m := MetricsFor(text, fontSize, z, drawData);
      AllIn(m, text) && forall c :: c in m ==> m[c] == Prototype(fontSize, z, drawData)
  {
    MetricsForSpec(text, fontSize, z, drawData);
    var m := MetricsFor(text, fontSize, z, drawData);
    forall k | 0 <= k < |text| ensures text[k] in m {
      assert text[k] in text;
    }
  }

  /** That map covers the text, and in it every character, whitespace
      included, is `font_size / 2 + 2` wide. */
  lemma MetricsForWidth(text: seq<char>, fontSize: real, z: real, drawData: nat, c: char)
    requires c in text
    ensures AllIn(MetricsFor(text, fontSize, z, drawData), text)
    ensures CharWidth(MetricsFor(text, fontSize, z, drawData), c) == fontSize / 2.0 + 2.0
  {
    MetricsForSpec(text, fontSize, z, drawData);
    var m := MetricsFor(text, fontSize, z, drawData);
    forall k | 0 <= k < |text| ensures text[k] in m {
      assert text[k] in text;
    }
  }


  /** `get_line_start_x`. */
  function GetLineStartX(baseX: real, lineWidth: real, maxLineWidth: real, alignment: TextLayout.Alignment): (x: real)
    ensures alignment == TextLayout.Left ==> x == baseX
    ensures alignment == TextLayout.Right ==> x + lineWidth == baseX + maxLineWidth
    ensures alignment == TextLayout.Center ==> x - baseX == (baseX + maxLineWidth) - (x + lineWidth)
  {
    match alignment
    case Left => baseX
    case Center => baseX + (maxLineWidth - lineWidth) / 2.0
    case Right => baseX + (maxLineWidth - lineWidth)
  }

  /** `move_forward_chars`: `s` without its first `n` characters. */
  function MoveForwardChars(s: seq<char>, n: nat): (r: seq<char>)
    ensures n <= |s| ==> r == s[n..]
    ensures n >= |s| ==> r == []
  {
    if n >= |s| then [] else s[n..]
  }

  /** Moving forward twice is moving forward by the sum. */
  lemma MoveForwardTwice(s: seq<char>, a: nat, b: nat)
    ensures MoveForwardChars(MoveForwardChars(s, a), b) == MoveForwardChars(s, a + b)
  {
  }

  /** Every suffix of a covered text is covered. */
  lemma AllInDrop(metrics: Metrics, s: seq<char>, n: nat)
    requires AllIn(metrics, s)
    ensures AllIn(metrics, MoveForwardChars(s, n))
  {
    if n < |s| {
      forall k | 0 <= k < |s| - n
        ensures s[n..][k] in metrics
      {
        assert s[n..][k] == s[n + k];
      }
    }
  }

  /** The same, for a suffix given by where it starts. */
  lemma AllInSuffix(metrics: Metrics, s: seq<char>, j: nat)
    requires AllIn(metrics, s) && j <= |s|
    ensures AllIn(metrics, s[j..])
  {
    AllInDrop(metrics, s, j);
  }

  // ---------------------------------------------------------------------
  // Words and lines

  /** The remaining room `get_line_length_and_width` passes on. */
  function Remaining(maxWidth: Option<real>, used: real): Option<real>
  {
    if maxWidth.Some? then Some(maxWidth.value - used) else None
  }

  /** `max_width.iter().any(|w| total_width > *w)`. */
  predicate Exceeds(maxWidth: Option<real>, total: real)
  {
    maxWidth.Some? && total > maxWidth.value
  }

  /** `get_word_length` from character `i` on, with `total` the width so
      far: `None` only for a word that overflows a line it does not start,
      and a word stops only at whitespace, at the end, or where it
      overflows. */
  function WordFrom(metrics: Metrics, maxWidth: Option<real>, s: seq<char>, startsLine: bool, i: nat, total: real)
    : (r: Option<(nat, real)>)
    requires i <= |s|
    ensures r.None? ==> !startsLine && maxWidth.Some?
    ensures r.Some? ==> i <= r.value.0 <= |s|
    ensures r.Some? && r.value.0 < |s| && !IsWhitespace(s[r.value.0]) ==> Exceeds(maxWidth, r.value.1)
    decreases |s| - i
  {
    if i == |s| || IsWhitespace(s[i]) then Some((i, total))
    else
      var t := total + CharWidth(metrics, s[i]);
      if Exceeds(maxWidth, t) then
        if startsLine then Some((i, t)) else None
      else WordFrom(metrics, maxWidth, s, startsLine, i + 1, t)
  }

  /** The word holds no whitespace. */
  lemma {:induction false} WordFromNoSpace(metrics: Metrics, maxWidth: Option<real>, s: seq<char>, startsLine: bool,
                                           i: nat, total: real)
    requires i <= |s|
    ensures var r := WordFrom(metrics, maxWidth, s, startsLine, i, total);
      r.Some? ==> forall k :: i <= k < r.value.0 ==> !IsWhitespace(s[k])
    decreases |s| - i
  {
    if !(i == |s| || IsWhitespace(s[i])) {
      var t := total + CharWidth(metrics, s[i]);
      if !Exceeds(maxWidth, t) {
        WordFromNoSpace(metrics, maxWidth, s, startsLine, i + 1, t);
      }
    }
  }

  /** Unless the word overflowed, its width is the widths of its
      characters added to `total`. */
  lemma {:induction false} WordFromWidth(metrics: Metrics, maxWidth: Option<real>, s: seq<char>, startsLine: bool,
                                         i: nat, total: real)
    requires i <= |s|
    ensures var r := WordFrom(metrics, maxWidth, s, startsLine, i, total);
      r.Some? && !Exceeds(maxWidth, r.value.1) ==> r.value.1 == total + Widths(metrics, s[i..r.value.0])
    decreases |s| - i
  {
    if !(i == |s| || IsWhitespace(s[i])) {
      var t := total + CharWidth(metrics, s[i]);
      if !Exceeds(maxWidth, t) {
        WordFromWidth(metrics, maxWidth, s, startsLine, i + 1, t);
        var r := WordFrom(metrics, maxWidth, s, startsLine, i + 1, t);
        if r.Some? {
          assert s[i..r.value.0] == [s[i]] + s[i + 1..r.value.0];
        }
      }
    }
  }

  /** `get_word_length`: the length and width of the word `s` starts with,
      or `None` when it overflows a line it does not start. */
  function WordLength(metrics: Metrics, maxWidth: Option<real>, s: seq<char>, startsLine: bool): Option<(nat, real)>
  {
    WordFrom(metrics, maxWidth, s, startsLine, 0, 0.0)
  }

  /** With no maximum width the word is the whole leading run of
      non-whitespace characters, and its width is theirs. */
  lemma WordWithoutLimit(metrics: Metrics, s: seq<char>, startsLine: bool)
    ensures var r := WordLength(metrics, None, s, startsLine);
      r.Some? && (r.value.0 == |s| || IsWhitespace(s[r.value.0])) &&
      (forall k :: 0 <= k < r.value.0 ==> !IsWhitespace(s[k])) &&
      r.value.1 == Widths(metrics, s[..r.value.0])
  {
    var r := WordLength(metrics, None, s, startsLine);
    WordFromNoSpace(metrics, None, s, startsLine, 0, 0.0);
    WordFromWidth(metrics, None, s, startsLine, 0, 0.0);
    assert s[0..r.value.0] == s[..r.value.0];
  }

  /** The end of the whitespace run that starts at `j`: the first '\n' or
      non-whitespace character from `j` on. */
  function RunEnd(s: seq<char>, j: nat): (r: nat)
    requires j <= |s|
    ensures j <= r <= |s|
    ensures r < |s| ==> s[r] == '\n' || !IsWhitespace(s[r])
    decreases |s| - j
  {
    if j == |s| || s[j] == '\n' || !IsWhitespace(s[j]) then j else RunEnd(s, j + 1)
  }

  /** The run before its end is whitespace other than '\n'. */
  lemma {:induction false} RunEndSpec(s: seq<char>, j: nat)
    requires j <= |s|
    ensures forall k :: j <= k < RunEnd(s, j) ==> IsWhitespace(s[k]) && s[k] != '\n'
    decreases |s| - j
  {
    if !(j == |s| || s[j] == '\n' || !IsWhitespace(s[j])) {
      RunEndSpec(s, j + 1);
    }
  }

  /** The outcome of one turn of the loop of `get_line_length_and_width`:
      the line is done, or it goes on with the text left. */
  datatype Turn = Stop(len: nat, total: real) | Go(rest: seq<char>, len: nat, total: real)

  /** The part of a turn after the word, with `s1` the text after it and
      `len1`, `total1` the line so far: the line is done when the text is
      or the width overflows; otherwise the whitespace run follows, where a
      '\n' closes the line and is counted in its length. The line goes on
      only with a suffix of `s1`, a shorter one when `s1` starts with
      whitespace. */
  function AfterWord(metrics: Metrics, maxWidth: Option<real>, s1: seq<char>, len1: nat, total1: real): (t: Turn)
    ensures t.Stop? ==> len1 <= t.len <= len1 + |s1|
    ensures t.Go? ==> |t.rest| <= |s1| && t.len + |t.rest| == len1 + |s1|
    ensures t.Go? ==> |s1| > 0 && (IsWhitespace(s1[0]) ==> |t.rest| < |s1|)
  {
    if |s1| == 0 || Exceeds(maxWidth, total1) then Stop(len1, total1)
    else
      var k := RunEnd(s1, 0);
      var total2 := total1 + Widths(metrics, s1[..k]);
      if k < |s1| && s1[k] == '\n' then Stop(len1 + k + 1, total2)
      else
        var s2 := MoveForwardChars(s1, k);
        if |s2| == 0 || Exceeds(maxWidth, total2) then Stop(len1 + k, total2)
        else Go(s2, len1 + k, total2)
  }

  /** One turn of `get_line_length_and_width`, with `len` characters and
      `total` width already on the line: the next word if it fits, then
      the rest of the turn. The line goes on only with less text left, and
      every character it moved past is counted. */
  function LineTurn(metrics: Metrics, maxWidth: Option<real>, s: seq<char>, len: nat, total: real): (t: Turn)
    ensures t.Stop? ==> len <= t.len <= len + |s|
    ensures t.Go? ==> |t.rest| < |s| && t.len + |t.rest| == len + |s|
  {
    var word := WordLength(metrics, Remaining(maxWidth, total), s, len == 0);
    if word.None? then Stop(len, total)
    else AfterWord(metrics, maxWidth, MoveForwardChars(s, word.value.0), len + word.value.0, total + word.value.1)
  }

  /** A turn stops where the word overflows a line it does not start, and
      otherwise goes on as `AfterWord` from the text after the word. */
  lemma LineTurnCases(metrics: Metrics, maxWidth: Option<real>, s: seq<char>, len: nat, total: real)
    ensures var w := WordLength(metrics, Remaining(maxWidth, total), s, len == 0);
      (w.None? ==> LineTurn(metrics, maxWidth, s, len, total) == Stop(len, total)) &&
      (w.Some? ==> LineTurn(metrics, maxWidth, s, len, total) ==
                     AfterWord(metrics, maxWidth, MoveForwardChars(s, w.value.0), len + w.value.0, total + w.value.1))
  {
  }

  /** `get_line_length_and_width` from `s` on: turns until the line is done. */
  function LineFrom(metrics: Metrics, maxWidth: Option<real>, s: seq<char>, len: nat, total: real): (r: (nat, real))
    ensures len <= r.0 <= len + |s|
    decreases |s|
  {
    match LineTurn(metrics, maxWidth, s, len, total)
    case Stop(l, t) => (l, t)
    case Go(rest, l, t) => LineFrom(metrics, maxWidth, rest, l, t)
  }

  /** `get_line_length_and_width`: how many characters the line starting
      `s` takes (a closing '\n' included), and its width. */
  function LineLengthAndWidth(metrics: Metrics, maxWidth: Option<real>, s: seq<char>): (nat, real)
  {
    LineFrom(metrics, maxWidth, s, 0, 0.0)
  }

  /** The index of the first '\n' of `s`, or `|s|` when it has none. */
  function FirstNewline(s: seq<char>): (i: nat)
    ensures i <= |s| && (i < |s| ==> s[i] == '\n')
    ensures forall k :: 0 <= k < i ==> s[k] != '\n'
  {
    if |s| == 0 || s[0] == '\n' then 0 else 1 + FirstNewline(s[1..])
  }

  /** Past a prefix without '\n', the first '\n' is found in the rest. */
  lemma {:induction false} FirstNewlinePast(s: seq<char>, w: nat)
    requires w <= |s| && forall k :: 0 <= k < w ==> s[k] != '\n'
    ensures FirstNewline(s) == w + FirstNewline(s[w..])
  {
    if w > 0 {
      assert s[1..][w - 1..] == s[w..];
      FirstNewlinePast(s[1..], w - 1);
    }
  }

  /** A word holds no '\n'. */
  lemma WordSkipsNewline(metrics: Metrics, maxWidth: Option<real>, s: seq<char>, startsLine: bool)
    ensures var r := WordLength(metrics, maxWidth, s, startsLine);
      r.Some? ==> FirstNewline(s) == r.value.0 + FirstNewline(MoveForwardChars(s, r.value.0))
  {
    var r := WordLength(metrics, maxWidth, s, startsLine);
    if r.Some? {
      WordFromNoSpace(metrics, maxWidth, s, startsLine, 0, 0.0);
      var w := r.value.0;
      assert forall k :: 0 <= k < w ==> IsWhitespace('\n') && s[k] != '\n';
      FirstNewlinePast(s, w);
    }
  }

  /** Neither does the whitespace run before its end. */
  lemma RunSkipsNewline(s: seq<char>)
    ensures var k := RunEnd(s, 0);
      FirstNewline(s) == k + FirstNewline(MoveForwardChars(s, k))
  {
    RunEndSpec(s, 0);
    FirstNewlinePast(s, RunEnd(s, 0));
  }

  /** A turn that stops the line stops at most just past the first '\n'. */
  lemma TurnStopsByNewline(metrics: Metrics, maxWidth: Option<real>, s: seq<char>, len: nat, total: real)
    ensures var t := LineTurn(metrics, maxWidth, s, len, total);
      t.Stop? ==> t.len <= len + FirstNewline(s) + 1
  {
    LineTurnCases(metrics, maxWidth, s, len, total);
    var word := WordLength(metrics, Remaining(maxWidth, total), s, len == 0);
    WordSkipsNewline(metrics, Remaining(maxWidth, total), s, len == 0);
    if word.Some? {
      RunSkipsNewline(MoveForwardChars(s, word.value.0));
    }
  }

  /** A turn that goes on moves past no '\n'. */
  lemma TurnSkipsNewline(metrics: Metrics, maxWidth: Option<real>, s: seq<char>, len: nat, total: real)
    ensures var t := LineTurn(metrics, maxWidth, s, len, total);
      t.Go? ==> t.len + FirstNewline(t.rest) == len + FirstNewline(s)
  {
    LineTurnCases(metrics, maxWidth, s, len, total);
    var word := WordLength(metrics, Remaining(maxWidth, total), s, len == 0);
    WordSkipsNewline(metrics, Remaining(maxWidth, total), s, len == 0);
    if word.Some? {
      RunSkipsNewline(MoveForwardChars(s, word.value.0));
    }
  }

  /** A '\n' ends the line: no line reaches past the first '\n' of `s`. */
  lemma {:induction false} NewlineEndsLine(metrics: Metrics, maxWidth: Option<real>, s: seq<char>, len: nat, total: real)
    ensures LineFrom(metrics, maxWidth, s, len, total).0 <= len + FirstNewline(s) + 1
    decreases |s|
  {
    TurnStopsByNewline(metrics, maxWidth, s, len, total);
    TurnSkipsNewline(metrics, maxWidth, s, len, total);
    match LineTurn(metrics, maxWidth, s, len, total)
    case Stop(_, _) =>
    case Go(rest, l, t) => NewlineEndsLine(metrics, maxWidth, rest, l, t);
  }

  /** The first `n` characters of a line less a closing '\n': those whose
      widths the line's width adds up. */
  function LineBody(s: seq<char>, n: nat): (b: nat)
    requires n <= |s|
    ensures b == n || (b + 1 == n && s[b] == '\n')
  {
    if n > 0 && s[n - 1] == '\n' then n - 1 else n
  }

  /** Widths add up over concatenation. */
  lemma {:induction false} WidthsAppend(metrics: Metrics, a: seq<char>, b: seq<char>)
    ensures Widths(metrics, a + b) == Widths(metrics, a) + Widths(metrics, b)
  {
    if |a| > 0 {
      assert (a + b)[0] == a[0];
      assert (a + b)[1..] == a[1..] + b;
      WidthsAppend(metrics, a[1..], b);
    } else {
      assert a + b == b;
    }
  }

  /** The widths of the first `n + m` characters are those of the first
      `n`, then of the `m` after them. */
  lemma WidthsSplit(metrics: Metrics, s: seq<char>, n: nat, m: nat)
    requires n + m <= |s|
    ensures Widths(metrics, s[..n + m]) == Widths(metrics, s[..n]) + Widths(metrics, s[n..][..m])
  {
    assert s[..n + m] == s[..n] + s[n..][..m];
    WidthsAppend(metrics, s[..n], s[n..][..m]);
  }

  /** Past `d` characters not ending in '\n', the line body is counted in
      the rest. */
  lemma BodyShift(s: seq<char>, d: nat, m: nat)
    requires d + m <= |s|
    requires d > 0 ==> s[d - 1] != '\n'
    ensures LineBody(s, d + m) == d + LineBody(s[d..], m)
  {
    if m > 0 {
      assert s[d..][m - 1] == s[d + m - 1];
    }
  }

  /** What a turn `t` that started `s1` with `len1` characters of width
      `total1` on the line has accounted for: it moved forward; the width it
      adds is that of the characters it moved past, a closing '\n' excepted,
      unless it overflowed; and if it goes on, it has not overflowed, leaves
      the text after those characters and has not just moved past a '\n'. */
  ghost predicate Accounted(metrics: Metrics, maxWidth: Option<real>, s1: seq<char>, len1: nat, total1: real, t: Turn)
  {
    len1 <= t.len <= len1 + |s1| &&
    (t.Go? ==> t.rest == s1[t.len - len1..] && (t.len > len1 ==> s1[t.len - len1 - 1] != '\n') &&
               !Exceeds(maxWidth, t.total) && t.total == total1 + Widths(metrics, s1[..t.len - len1])) &&
    (t.Stop? && !Exceeds(maxWidth, t.total) ==> t.total == total1 + Widths(metrics, s1[..LineBody(s1, t.len - len1)]))
  }

  /** What the part of a turn after the word has accounted for, beyond
      `Accounted`: the line had not overflowed before it when it moves or
      goes on, and it adds nothing when it stops where it started. */
  ghost predicate RestAccounted(metrics: Metrics, maxWidth: Option<real>, s1: seq<char>, len1: nat, total1: real, t: Turn)
  {
    Accounted(metrics, maxWidth, s1, len1, total1, t) &&
    (t.Go? || t.len > len1 ==> !Exceeds(maxWidth, total1)) &&
    (t.Stop? && t.len == len1 ==> t.total == total1)
  }

  /** The part of a turn after the word accounts for its width. */
  lemma AfterWordWidth(metrics: Metrics, maxWidth: Option<real>, s1: seq<char>, len1: nat, total1: real, t: Turn)
    requires t == AfterWord(metrics, maxWidth, s1, len1, total1)
    ensures RestAccounted(metrics, maxWidth, s1, len1, total1, t)
  {
    if |s1| == 0 || Exceeds(maxWidth, total1) {
      assert AfterWord(metrics, maxWidth, s1, len1, total1) == Stop(len1, total1);
    } else {
      var k := RunEnd(s1, 0);
      RunEndSpec(s1, 0);
      var total2 := total1 + Widths(metrics, s1[..k]);
      if k < |s1| && s1[k] == '\n' {
        assert AfterWord(metrics, maxWidth, s1, len1, total1) == Stop(len1 + k + 1, total2);
        assert LineBody(s1, k + 1) == k;
      } else {
        var s2 := MoveForwardChars(s1, k);
        assert s2 == s1[k..];
        assert k > 0 ==> s1[k - 1] != '\n';
        if |s2| == 0 || Exceeds(maxWidth, total2) {
          assert AfterWord(metrics, maxWidth, s1, len1, total1) == Stop(len1 + k, total2);
          assert LineBody(s1, k) == k;
        } else {
          assert AfterWord(metrics, maxWidth, s1, len1, total1) == Go(s2, len1 + k, total2);
        }
      }
    }
  }

  /** Composing the word with the rest of the turn: `wl` characters of
      width `ww` (unless it overflowed), then a turn `t` from the text after
      them. */
  lemma ComposeTurn(metrics: Metrics, maxWidth: Option<real>, s: seq<char>, len: nat, total: real,
                    wl: nat, ww: real, s1: seq<char>, t: Turn)
    requires WordAccounted(metrics, maxWidth, s, total, wl, ww) && s1 == s[wl..]
    requires RestAccounted(metrics, maxWidth, s1, len + wl, total + ww, t)
    requires t.Go? ==> |t.rest| < |s|
    ensures Accounted(metrics, maxWidth, s, len, total, t)
    ensures t.Go? ==> t.len > len
  {
    var m := t.len - (len + wl);
    if t.Go? {
      WidthsSplit(metrics, s, wl, m);
      if m > 0 {
        assert s[wl + m - 1] == s1[m - 1];
      }
      assert s1[m..] == s[wl + m..];
    } else if !Exceeds(maxWidth, t.total) {
      var n := LineBody(s1, m);
      BodyShift(s, wl, m);
      WidthsSplit(metrics, s, wl, n);
      if m == 0 {
        assert s1[..0] == [];
      }
    }
  }

  /** What a turn needs of its word of `wl` characters and width `ww`: it
      fits in the text, does not end in '\n', and, unless the line
      overflowed, is as wide as its characters. */
  ghost predicate WordAccounted(metrics: Metrics, maxWidth: Option<real>, s: seq<char>, total: real, wl: nat, ww: real)
  {
    wl <= |s| && (wl > 0 ==> s[wl - 1] != '\n') &&
    (!Exceeds(maxWidth, total + ww) ==> ww == Widths(metrics, s[..wl]))
  }

  /** The word a turn measures is accounted for. */
  lemma WordFacts(metrics: Metrics, maxWidth: Option<real>, s: seq<char>, len: nat, total: real, wl: nat, ww: real)
    requires WordLength(metrics, Remaining(maxWidth, total), s, len == 0) == Some((wl, ww))
    ensures WordAccounted(metrics, maxWidth, s, total, wl, ww)
  {
    WordFromNoSpace(metrics, Remaining(maxWidth, total), s, len == 0, 0, 0.0);
    WordFromWidth(metrics, Remaining(maxWidth, total), s, len == 0, 0, 0.0);
    assert s[0..wl] == s[..wl];
    assert Exceeds(Remaining(maxWidth, total), ww) == Exceeds(maxWidth, total + ww);
    assert wl > 0 ==> !IsWhitespace(s[wl - 1]);
  }

  /** A whole turn accounts for its width: the word's, then the rest's. A
      turn that goes on moves forward. */
  lemma TurnWidth(metrics: Metrics, maxWidth: Option<real>, s: seq<char>, len: nat, total: real)
    ensures var t := LineTurn(metrics, maxWidth, s, len, total);
      Accounted(metrics, maxWidth, s, len, total, t) && (t.Go? ==> t.len > len)
  {
    var t := LineTurn(metrics, maxWidth, s, len, total);
    var word := WordLength(metrics, Remaining(maxWidth, total), s, len == 0);
    if word.None? {
      assert t == Stop(len, total);
      assert s[..0] == [];
    } else {
      var wl, ww := word.value.0, word.value.1;
      WordFacts(metrics, maxWidth, s, len, total, wl, ww);
      assert t == AfterWord(metrics, maxWidth, MoveForwardChars(s, wl), len + wl, total + ww);
      WordThenRest(metrics, maxWidth, s, len, total, wl, ww, t);
    }
  }

  /** A turn that measured a word of `wl` characters and width `ww`, then
      went on as `AfterWord` from the text after it. */
  lemma WordThenRest(metrics: Metrics, maxWidth: Option<real>, s: seq<char>, len: nat, total: real,
                     wl: nat, ww: real, t: Turn)
    requires WordAccounted(metrics, maxWidth, s, total, wl, ww)
    requires t == AfterWord(metrics, maxWidth, MoveForwardChars(s, wl), len + wl, total + ww)
    requires t.Go? ==> |t.rest| < |s|
    ensures Accounted(metrics, maxWidth, s, len, total, t) && (t.Go? ==> t.len > len)
  {
    var s1 := MoveForwardChars(s, wl);
    AfterWordWidth(metrics, maxWidth, s1, len + wl, total + ww, t);
    ComposeTurn(metrics, maxWidth, s, len, total, wl, ww, s1, t);
  }

  /** What a line `r` measured from `s`, with `len` characters of width
      `total` on it already, has accounted for: it moved forward within
      the text and, unless it overflowed, its width adds those of the
      characters it moved past, a closing '\n' excepted. */
  ghost predicate LineAccounted(metrics: Metrics, maxWidth: Option<real>, s: seq<char>, len: nat, total: real, r: (nat, real))
  {
    len <= r.0 <= len + |s| &&
    (!Exceeds(maxWidth, r.1) ==> r.1 == total + Widths(metrics, s[..LineBody(s, r.0 - len)]))
  }

  /** A turn that stops the line accounts for the line. */
  lemma StopLine(metrics: Metrics, maxWidth: Option<real>, s: seq<char>, len: nat, total: real, t: Turn)
    requires t.Stop? && Accounted(metrics, maxWidth, s, len, total, t)
    ensures LineAccounted(metrics, maxWidth, s, len, total, (t.len, t.total))
  {
  }

  /** A turn that goes on, then the rest of the line: the widths combine. */
  lemma CombineLine(metrics: Metrics, maxWidth: Option<real>, s: seq<char>, len: nat, total: real,
                    t: Turn, r: (nat, real))
    requires t.Go? && t.len > len && Accounted(metrics, maxWidth, s, len, total, t)
    requires LineAccounted(metrics, maxWidth, t.rest, t.len, t.total, r)
    ensures LineAccounted(metrics, maxWidth, s, len, total, r)
  {
    var d := t.len - len;
    var m := r.0 - t.len;
    BodyShift(s, d, m);
    WidthsSplit(metrics, s, d, LineBody(t.rest, m));
  }

  /** `get_line_length_and_width`'s width: unless the line overflowed, it
      is the width of the line's characters, a closing '\n' excepted, added
      to what the line held already. */
  lemma {:induction false} LineFromWidth(metrics: Metrics, maxWidth: Option<real>, s: seq<char>, len: nat, total: real)
    ensures LineAccounted(metrics, maxWidth, s, len, total, LineFrom(metrics, maxWidth, s, len, total))
    decreases |s|
  {
    TurnWidth(metrics, maxWidth, s, len, total);
    var t := LineTurn(metrics, maxWidth, s, len, total);
    if t.Stop? {
      assert LineFrom(metrics, maxWidth, s, len, total) == (t.len, t.total);
      StopLine(metrics, maxWidth, s, len, total, t);
    } else {
      LineFromWidth(metrics, maxWidth, t.rest, t.len, t.total);
      var r := LineFrom(metrics, maxWidth, t.rest, t.len, t.total);
      assert LineFrom(metrics, maxWidth, s, len, total) == r;
      CombineLine(metrics, maxWidth, s, len, total, t, r);
    }
  }

  /** The line's width as `draw_text` gets it: unless it overflowed, the
      widths of its characters, a closing '\n' excepted; it then stays
      within the maximum width. */
  lemma LineWidth(metrics: Metrics, maxWidth: Option<real>, s: seq<char>)
    ensures var (len, width) := LineLengthAndWidth(metrics, maxWidth, s);
      !Exceeds(maxWidth, width) ==>
        width == Widths(metrics, s[..LineBody(s, len)]) && (maxWidth.Some? ==> width <= maxWidth.value)
  {
    LineFromWidth(metrics, maxWidth, s, 0, 0.0);
  }

  /** A line that ends in a '\n' ends at the first one, and counts it. */
  lemma NewlineCounted(metrics: Metrics, maxWidth: Option<real>, s: seq<char>)
    ensures var len := LineLengthAndWidth(metrics, maxWidth, s).0;
      len > 0 && s[len - 1] == '\n' ==> len == FirstNewline(s) + 1
  {
    NewlineEndsLine(metrics, maxWidth, s, 0, 0.0);
  }

  /** Where a line with no maximum width ends: just past the first '\n',
      or at the end of a text without one. */
  function LineEnd(s: seq<char>): nat
  {
    if FirstNewline(s) < |s| then FirstNewline(s) + 1 else |s|
  }

  /** With no maximum width a turn stops only at a '\n' or the end. */
  lemma TurnWithoutLimit(metrics: Metrics, s: seq<char>, len: nat, total: real)
    ensures var t := LineTurn(metrics, None, s, len, total);
      t.Stop? ==> t.len == len + LineEnd(s)
  {
    LineTurnCases(metrics, None, s, len, total);
    WordWithoutLimit(metrics, s, len == 0);
    WordSkipsNewline(metrics, None, s, len == 0);
    var wl := WordLength(metrics, None, s, len == 0).value.0;
    var s1 := MoveForwardChars(s, wl);
    RunSkipsNewline(s1);
  }

  /** With no maximum width, the line runs up to and including the first
      '\n', or to the end of a text without one. */
  lemma {:induction false} LineEndWithoutLimit(metrics: Metrics, s: seq<char>, len: nat, total: real)
    ensures LineFrom(metrics, None, s, len, total).0 == len + LineEnd(s)
    decreases |s|
  {
    TurnWithoutLimit(metrics, s, len, total);
    TurnSkipsNewline(metrics, None, s, len, total);
    var t := LineTurn(metrics, None, s, len, total);
    if t.Go? {
      LineEndWithoutLimit(metrics, t.rest, t.len, t.total);
    }
  }

  /** With no maximum width, the line is everything up to and including
      the first '\n', or the whole text without one, and its width is that
      of the characters before the '\n'. */
  lemma LineWithoutLimit(metrics: Metrics, s: seq<char>)
    ensures LineLengthAndWidth(metrics, None, s) == (LineEnd(s), Widths(metrics, s[..FirstNewline(s)]))
  {
    LineEndWithoutLimit(metrics, s, 0, 0.0);
    LineFromWidth(metrics, None, s, 0, 0.0);
    assert LineBody(s, LineEnd(s)) == FirstNewline(s);
  }

  // ---------------------------------------------------------------------
  // The glyph queue

  /** The glyphs the inner loop of `draw_text` pushes for `line`: each
      character's template at the cursor, which then moves right by the
      character's width. */
  function LineQueue(metrics: Metrics, line: seq<char>, x: real, y: real): (gs: seq<Glyph>)
    ensures |gs| == |line|
  {
    if |line| == 0 then []
    else [Template(metrics, line[0]).(position := Position(x, y))] + LineQueue(metrics, line[1..], x + CharWidth(metrics, line[0]), y)
  }

  /** The characters of a line of length `lineLen` that get a glyph: the
      inner loop breaks when it reads the `lineLen`-th character, before
      pushing it. */
  function Queued(lineLen: nat, n: nat): (q: nat)
    ensures q <= n && (0 < lineLen <= n ==> q == lineLen - 1)
  {
    if lineLen == 0 then 0 else Min(lineLen - 1, n)
  }

  /** The line `draw_text` queues from the start of `text`, given the
      length and width `get_line_length_and_width` found for it: the
      characters that get a glyph, the x they start at, and the text after
      the line, which takes at least one character (see the findings). */
  function NextLine(maxLineWidth: Option<real>, alignment: TextLayout.Alignment,
                    x: real, text: seq<char>, lengthAndWidth: (nat, real)): (r: (seq<char>, real, seq<char>))
    requires |text| > 0
    ensures |r.0| <= |text| && r.0 == text[..|r.0|]
    ensures |r.2| < |text| && r.2 == text[|text| - |r.2|..] && |r.0| + |r.2| <= |text|
    ensures lengthAndWidth.0 <= |text| ==> |r.0| + |r.2| < |text|
  {
    var (len, width) := lengthAndWidth;
    var lineLen := Max(len, 1);
    var startX := if maxLineWidth.Some? then GetLineStartX(x, width, maxLineWidth.value, alignment) else x;
    (text[..Queued(lineLen, |text|)], startX, MoveForwardChars(text, lineLen))
  }

  /** `get_line_length_and_width` for fixed metrics and maximum width, as a
      function of the text. */
  function LineBreaker(metrics: Metrics, maxLineWidth: Option<real>): seq<char> -> (nat, real)
  {
    s => LineLengthAndWidth(metrics, maxLineWidth, s)
  }

  /** `lineOf` is `get_line_length_and_width` for these metrics and this
      maximum width. */
  ghost predicate Breaks(lineOf: seq<char> -> (nat, real), metrics: Metrics, maxLineWidth: Option<real>)
  {
    forall s {:trigger LineLengthAndWidth(metrics, maxLineWidth, s)} :: lineOf(s) == LineLengthAndWidth(metrics, maxLineWidth, s)
  }

  lemma LineBreakerBreaks(metrics: Metrics, maxLineWidth: Option<real>)
    ensures Breaks(LineBreaker(metrics, maxLineWidth), metrics, maxLineWidth)
  {
  }

  /** The whole queue `draw_text` pushes for `text`, line by line, each
      line one line height below the one before. `lineOf` breaks the lines;
      `draw_text` uses `LineBreaker`, and the shape of the queue below holds
      whatever the breaking. No more glyphs than characters are queued. */
  function TextQueue(metrics: Metrics, lineOf: seq<char> -> (nat, real), maxLineWidth: Option<real>,
                     alignment: TextLayout.Alignment, x: real, y: real, lineHeight: real, text: seq<char>)
    : (gs: seq<Glyph>)
    ensures |gs| <= |text|
    decreases |text|, 1
  {
    if |text| == 0 then []
    else
      var next := NextLine(maxLineWidth, alignment, x, text, lineOf(text));
      LineThenRest(metrics, lineOf, maxLineWidth, alignment, x, y, lineHeight, next.0, next.1, next.2)
  }

  /** The glyphs of `line` from `startX`, then the queue of the text after
      it one line height down. */
  function LineThenRest(metrics: Metrics, lineOf: seq<char> -> (nat, real), maxLineWidth: Option<real>,
                        alignment: TextLayout.Alignment, x: real, y: real, lineHeight: real,
                        line: seq<char>, startX: real, rest: seq<char>): (gs: seq<Glyph>)
    ensures |gs| <= |line| + |rest|
    decreases |rest|, 2
  {
    LineQueue(metrics, line, startX, y) + TextQueue(metrics, lineOf, maxLineWidth, alignment, x, y + lineHeight, lineHeight, rest)
  }

  /** The x of the `k`-th character of a line of characters `w` wide
      starting at `x`. */
  function NthX(x: real, w: real, k: nat): real
  {
    x + (k as real) * w
  }

  /** The line after its first character starts one character further on. */
  lemma NthXShift(x: real, w: real, k: nat)
    requires k >= 1
    ensures NthX(x + w, w, k - 1) == NthX(x, w, k)
  {
  }

  /** Every character of a line gets its template at a cursor that moves
      by `font_size / 2 + 2` per character. */
  lemma {:induction false} LineQueueShape(metrics: Metrics, line: seq<char>, x: real, y: real,
                                          fontSize: real, z: real, drawData: nat)
    requires AllIn(metrics, line)
    requires forall c :: c in metrics ==> metrics[c] == Prototype(fontSize, z, drawData)
    ensures var gs := LineQueue(metrics, line, x, y);
      forall k :: 0 <= k < |gs| ==>
        gs[k] == Prototype(fontSize, z, drawData).(position := Position(NthX(x, fontSize / 2.0 + 2.0, k), y))
  {
    if |line| > 0 {
      var w := fontSize / 2.0 + 2.0;
      assert CharWidth(metrics, line[0]) == w;
      LineQueueShape(metrics, line[1..], x + w, y, fontSize, z, drawData);
      var gs := LineQueue(metrics, line, x, y);
      assert NthX(x, w, 0) == x;
      forall k | 1 <= k < |gs|
        ensures gs[k] == Prototype(fontSize, z, drawData).(position := Position(NthX(x, w, k), y))
      {
        assert gs[k] == LineQueue(metrics, line[1..], x + w, y)[k - 1];
        NthXShift(x, w, k);
      }
    }
  }

  /** The queue after `done`, one line at a time: once the first line is
      queued after `done`, the rest of the queue is that of the text after
      the line, one line height down. */
  lemma TextQueueStep(metrics: Metrics, lineOf: seq<char> -> (nat, real), maxLineWidth: Option<real>,
                      alignment: TextLayout.Alignment, x: real, y: real, lineHeight: real, text: seq<char>,
                      done: seq<Glyph>, done': seq<Glyph>, rest: seq<char>)
    requires |text| > 0
    requires var next := NextLine(maxLineWidth, alignment, x, text, lineOf(text));
      done' == done + LineQueue(metrics, next.0, next.1, y) && rest == next.2
    ensures done + TextQueue(metrics, lineOf, maxLineWidth, alignment, x, y, lineHeight, text) ==
      done' + TextQueue(metrics, lineOf, maxLineWidth, alignment, x, y + lineHeight, lineHeight, rest)
  {
  }

  /** Glyphs that all carry one call's template data, queued after each other. */
  ghost predicate AllOfCall(gs: seq<Glyph>, fontSize: real, z: real, drawData: nat)
  {
    forall g | g in gs :: g.drawData == drawData && g.size == GetMetrics(fontSize) && g.z == z
  }

  /** The glyphs of one line all carry the call's template data. */
  lemma LineQueueOfCall(metrics: Metrics, line: seq<char>, x: real, y: real,
                        fontSize: real, z: real, drawData: nat)
    requires AllIn(metrics, line)
    requires forall c :: c in metrics ==> metrics[c] == Prototype(fontSize, z, drawData)
    ensures AllOfCall(LineQueue(metrics, line, x, y), fontSize, z, drawData)
  {
    LineQueueShape(metrics, line, x, y, fontSize, z, drawData);
  }

  /** Every queued glyph is the template of this call, so it carries this
      call's draw data index. */
  lemma {:induction false} TextQueueShape(metrics: Metrics, lineOf: seq<char> -> (nat, real), maxLineWidth: Option<real>,
                                          alignment: TextLayout.Alignment, x: real, y: real, lineHeight: real,
                                          text: seq<char>, fontSize: real, z: real, drawData: nat)
    requires AllIn(metrics, text)
    requires forall c :: c in metrics ==> metrics[c] == Prototype(fontSize, z, drawData)
    ensures AllOfCall(TextQueue(metrics, lineOf, maxLineWidth, alignment, x, y, lineHeight, text), fontSize, z, drawData)
    decreases |text|
  {
    if |text| > 0 {
      var next := NextLine(maxLineWidth, alignment, x, text, lineOf(text));
      AllInTake(metrics, text, |next.0|);
      AllInSuffix(metrics, text, |text| - |next.2|);
      LineQueueOfCall(metrics, next.0, next.1, y, fontSize, z, drawData);
      TextQueueShape(metrics, lineOf, maxLineWidth, alignment, x, y + lineHeight, lineHeight, next.2, fontSize, z, drawData);
    }
  }

  /** As written, `draw_text` never gets past a line of length zero: with
      a maximum width narrower than its first character, the line of "a"
      has length 0, so the text left stays "a" and the loop does not end. */
  lemma DrawTextStalls(z: real)
    ensures var m := MetricsFor("a", 16.0, z, 0);
      LineLengthAndWidth(m, Some(1.0), "a") == (0, 10.0) &&
      MoveForwardChars("a", LineLengthAndWidth(m, Some(1.0), "a").0) == "a"
  {
    var m := MetricsFor("a", 16.0, z, 0);
    MetricsForWidth("a", 16.0, z, 0, 'a');
    assert !IsWhitespace('a');
    assert WordFrom(m, Some(1.0), "a", true, 0, 0.0) == Some((0, 10.0));
  }

  /** With every line taking at least one character, as the corrected
      `draw_text` ensures, the text left shrinks on every line. */
  lemma LinesProgress(metrics: Metrics, maxLineWidth: Option<real>, text: seq<char>)
    requires |text| > 0
    ensures var len := LineLengthAndWidth(metrics, maxLineWidth, text).0;
      1 <= Max(len, 1) <= |text| && |MoveForwardChars(text, Max(len, 1))| < |text|
  {
  }

  /** The inner loop drops the last character of every line: a one-line
      text without a maximum width queues all its characters but the last. */
  lemma LastCharacterNotQueued(fontSize: real, z: real)
    ensures var m := MetricsFor("ab", fontSize, z, 0);
      |TextQueue(m, LineBreaker(m, None), None, TextLayout.Left, 0.0, 0.0, fontSize * 1.25, "ab")| == 1
  {
    var m := MetricsFor("ab", fontSize, z, 0);
    assert !IsWhitespace('a') && !IsWhitespace('b');
    WordWithoutLimit(m, "ab", true);
    var word := WordLength(m, None, "ab", true);
    assert word.value.0 == 2;
    assert MoveForwardChars("ab", 2) == [];
    assert LineLengthAndWidth(m, None, "ab").0 == 2;
    assert Queued(2, 2) == 1;
    assert TextQueue(m, LineBreaker(m, None), None, TextLayout.Left, 0.0, 0.0 + fontSize * 1.25, fontSize * 1.25, []) == [];
  }

  // ---------------------------------------------------------------------
  // compose_draw_call

  /** The untextured quads `compose_draw_call` asks the renderer for; the
      constant rotation argument is left out. */
  datatype Quad = Quad(clipArea: Option<Corners>, position: Corners, texcoords: Corners, color: Color, z: real)

  /** The texture coordinates that mean "no texture". */
  const NoTexture: Corners := (-1.0, -1.0, -1.0, -1.0)

  predicate Indexed(gs: seq<Glyph>, n: nat)
  {
    forall k :: 0 <= k < |gs| ==> gs[k].drawData < n
  }

  /** A glyph's quads: one clipped quad, or an inner quad in the inverted
      colour inset by one physical pixel and the full quad over it. */
  function GlyphQuads(g: Glyph, d: TextDrawData, dpi: real): seq<Quad>
    requires dpi != 0.0
  {
    var x0 := g.size.x + g.position.x;
    var y0 := g.size.y + g.position.y;
    var x1 := x0 + g.size.w;
    var y1 := y0 + g.size.h;
    var e := 1.0 / dpi;
    if d.clipArea.Some? then [Quad(d.clipArea, (x0, y0, x1, y1), NoTexture, d.color, g.z)]
    else
      var c := d.color;
      [Quad(None, (x0 + e, y0 + e, x1 - e, y1 - e), NoTexture, (1.0 - c.0, 1.0 - c.1, 1.0 - c.2, c.3), g.z),
       Quad(None, (x0, y0, x1, y1), NoTexture, c, g.z)]
  }

  function Composed(gs: seq<Glyph>, dds: seq<TextDrawData>, dpi: real): seq<Quad>
    requires Indexed(gs, |dds|) && dpi != 0.0
  {
    if |gs| == 0 then [] else GlyphQuads(gs[0], dds[gs[0].drawData], dpi) + Composed(gs[1..], dds, dpi)
  }

  /** Every quad is untextured; each glyph gives one quad when its call
      has a clip area and two otherwise, so an empty queue gives none. */
  lemma {:induction false} ComposedShape(gs: seq<Glyph>, dds: seq<TextDrawData>, dpi: real)
    requires Indexed(gs, |dds|) && dpi != 0.0
    ensures var qs := Composed(gs, dds, dpi);
      |gs| <= |qs| <= 2 * |gs| &&
      (forall k :: 0 <= k < |qs| ==> qs[k].texcoords == NoTexture) &&
      ((forall k :: 0 <= k < |gs| ==> dds[gs[k].drawData].clipArea.Some?) ==> |qs| == |gs|) &&
      ((forall k :: 0 <= k < |gs| ==> dds[gs[k].drawData].clipArea.None?) ==> |qs| == 2 * |gs|)
  {
    if |gs| > 0 {
      assert Indexed(gs[1..], |dds|);
      ComposedShape(gs[1..], dds, dpi);
      var head := GlyphQuads(gs[0], dds[gs[0].drawData], dpi);
      var qs := Composed(gs, dds, dpi);
      assert qs == head + Composed(gs[1..], dds, dpi);
      assert forall k :: 0 <= k < |head| ==> head[k].texcoords == NoTexture;
      assert forall k :: 1 <= k < |gs| ==> gs[1..][k - 1] == gs[k];
    }
  }

  /** Appending glyphs of a call whose draw data entry exists keeps every
      glyph's index in range. */
  lemma IndexedAfterCall(gs: seq<Glyph>, added: seq<Glyph>, n: nat, fontSize: real, z: real, drawData: nat)
    requires Indexed(gs, n) && AllOfCall(added, fontSize, z, drawData) && drawData < n
    ensures Indexed(gs + added, n)
  {
    forall k | 0 <= k < |gs + added| ensures (gs + added)[k].drawData < n {
      if k >= |gs| {
        assert (gs + added)[k] in added;
      }
    }
  }

  /** The queue of a call appended to indexed glyphs keeps them indexed
      when the call's draw data entry exists. */
  lemma QueueIndexed(gs: seq<Glyph>, n: nat, metrics: Metrics, lineOf: seq<char> -> (nat, real),
                     maxLineWidth: Option<real>, alignment: TextLayout.Alignment, x: real, y: real,
                     lineHeight: real, text: seq<char>, fontSize: real, z: real, drawData: nat)
    requires Indexed(gs, n) && drawData < n
    requires AllIn(metrics, text)
    requires forall c :: c in metrics ==> metrics[c] == Prototype(fontSize, z, drawData)
    ensures Indexed(gs + TextQueue(metrics, lineOf, maxLineWidth, alignment, x, y, lineHeight, text), n)
  {
    TextQueueShape(metrics, lineOf, maxLineWidth, alignment, x, y, lineHeight, text, fontSize, z, drawData);
    IndexedAfterCall(gs, TextQueue(metrics, lineOf, maxLineWidth, alignment, x, y, lineHeight, text),
                     n, fontSize, z, drawData);
  }

  // ---------------------------------------------------------------------
  // The renderer

  class DummyTextRenderer {
    var glyphs: seq<Glyph>
    var drawDatas: seq<TextDrawData>
    var dpiFactor: real

    ghost predicate Valid()
      reads this
    {
      Indexed(glyphs, |drawDatas|)
    }

    /** `create`: empty queues at a DPI factor of one. */
    constructor ()
      ensures Valid() && glyphs == [] && drawDatas == [] && dpiFactor == 1.0
    {
      glyphs := [];
      drawDatas := [];
      dpiFactor := 1.0;
    }

    /** `update_dpi_factor`. */
    method UpdateDpiFactor(dpiFactor: real)
      requires Valid()
      modifies this`dpiFactor
      ensures Valid() && this.dpiFactor == dpiFactor
    {
      this.dpiFactor := dpiFactor;
    }

    /** `get_word_length`, scanning the characters. */
    static method GetWordLength(metrics: Metrics, maxWidth: Option<real>, s: seq<char>, startsLine: bool)
      returns (r: Option<(nat, real)>)
      requires AllIn(metrics, s)
      ensures r == WordLength(metrics, maxWidth, s, startsLine)
    {
      var len := 0;
      var totalWidth := 0.0;
      while len < |s|
        invariant len <= |s|
        invariant WordFrom(metrics, maxWidth, s, startsLine, len, totalWidth) == WordLength(metrics, maxWidth, s, startsLine)
      {
        var c := s[len];
        if IsWhitespace(c) {
          break;
        }
        var width := CharWidth(metrics, c);
        totalWidth := totalWidth + width;
        if Exceeds(maxWidth, totalWidth) {
          if startsLine {
            break;
          } else {
            return None;
          }
        }
        len := len + 1;
      }
      return Some((len, totalWidth));
    }

    /** The whitespace loop of `get_line_length_and_width`: the length of
        the run before the first '\n' or other character, and its width. */
    static method WhitespaceRun(metrics: Metrics, s: seq<char>) returns (k: nat, width: real)
      requires AllIn(metrics, s)
      ensures k == RunEnd(s, 0) && width == Widths(metrics, s[..k])
    {
      k := 0;
      width := 0.0;
      while k < |s|
        invariant k <= |s| && RunEnd(s, k) == RunEnd(s, 0)
        invariant width == Widths(metrics, s[..k])
      {
        var c := s[k];
        if c == '\n' || !IsWhitespace(c) {
          break;
        }
        WidthsSnoc(metrics, s[..k], c);
        assert s[..k + 1] == s[..k] + [c];
        width := width + CharWidth(metrics, c);
        k := k + 1;
      }
    }

    /** One turn of the loop of `get_line_length_and_width`: a word, then
        the rest of the turn; each `break` of the source is a `Stop`. */
    static method TakeTurn(metrics: Metrics, maxWidth: Option<real>, s: seq<char>, len: nat, totalWidth: real)
      returns (t: Turn)
      requires AllIn(metrics, s)
      ensures t == LineTurn(metrics, maxWidth, s, len, totalWidth)
      ensures t.Go? ==> AllIn(metrics, t.rest)
    {
      LineTurnCases(metrics, maxWidth, s, len, totalWidth);
      var word := GetWordLength(metrics, Remaining(maxWidth, totalWidth), s, len == 0);
      if word.None? {
        return Stop(len, totalWidth);
      }
      var s1 := MoveForwardChars(s, word.value.0);
      AllInDrop(metrics, s, word.value.0);
      t := FinishTurn(metrics, maxWidth, s1, len + word.value.0, totalWidth + word.value.1);
    }

    /** The turn after the word: the checks that end the line, and the
        whitespace run. */
    static method FinishTurn(metrics: Metrics, maxWidth: Option<real>, s1: seq<char>, len1: nat, total1: real)
      returns (t: Turn)
      requires AllIn(metrics, s1)
      ensures t == AfterWord(metrics, maxWidth, s1, len1, total1)
      ensures t.Go? ==> AllIn(metrics, t.rest)
    {
      if |s1| == 0 || Exceeds(maxWidth, total1) {
        return Stop(len1, total1);
      }
      var k, width := WhitespaceRun(metrics, s1);
      if k < |s1| && s1[k] == '\n' {
        return Stop(len1 + k + 1, total1 + width);
      }
      var s2 := MoveForwardChars(s1, k);
      if |s2| == 0 || Exceeds(maxWidth, total1 + width) {
        return Stop(len1 + k, total1 + width);
      }
      AllInDrop(metrics, s1, k);
      return Go(s2, len1 + k, total1 + width);
    }

    /** `get_line_length_and_width`: turns until the line is done. */
    static method GetLineLengthAndWidth(metrics: Metrics, maxWidth: Option<real>, text: seq<char>)
      returns (len: nat, totalWidth: real)
      requires AllIn(metrics, text)
      ensures (len, totalWidth) == LineLengthAndWidth(metrics, maxWidth, text)
    {
      len := 0;
      totalWidth := 0.0;
      var s := text;
      while true
        invariant AllIn(metrics, s)
        invariant LineFrom(metrics, maxWidth, s, len, totalWidth) == LineLengthAndWidth(metrics, maxWidth, text)
        decreases |s|
      {
        var t := TakeTurn(metrics, maxWidth, s, len, totalWidth);
        if t.Stop? {
          len, totalWidth := t.len, t.total;
          return;
        }
        s, len, totalWidth := t.rest, t.len, t.total;
      }
    }

    /** The metrics loop of `draw_text`: one template per distinct character. */
    static method CollectMetrics(text: seq<char>, fontSize: real, z: real, drawData: nat) returns (metrics: Metrics)
      ensures metrics == MetricsFor(text, fontSize, z, drawData)
    {
      metrics := map[];
      for i := 0 to |text|
        invariant metrics == MetricsFor(text[..i], fontSize, z, drawData)
      {
        var c := text[i];
        assert text[..i + 1][..i] == text[..i];
        if c in metrics {
          continue;
        }
        metrics := metrics[c := Prototype(fontSize, z, drawData)];
      }
      assert text[..|text|] == text;
    }

    /** The inner loop of `draw_text` over the text left. */
    method QueueLine(metrics: Metrics, left: seq<char>, lineLen: nat, x: real, y: real)
      requires AllIn(metrics, left)
      modifies this`glyphs
      ensures glyphs == old(glyphs) + LineQueue(metrics, left[..Queued(lineLen, |left|)], x, y)
    {
      ghost var line := left[..Queued(lineLen, |left|)];
      ghost var whole := glyphs + LineQueue(metrics, line, x, y);
      var cursorX := x;
      var charsRead := 0;
      while charsRead < |left|
        invariant charsRead <= Queued(lineLen, |left|)
        invariant glyphs + LineQueue(metrics, line[charsRead..], cursorX, y) == whole
      {
        var c := left[charsRead];
        charsRead := charsRead + 1;
        if charsRead >= lineLen {
          break;
        }
        assert line[charsRead - 1..][1..] == line[charsRead..];
        glyphs := glyphs + [metrics[c].(position := Position(cursorX, y))];
        cursorX := cursorX + CharWidth(metrics, c);
      }
      assert line[|line|..] == [];
    }

    /** `draw_text`: one draw data entry, then the glyphs of every line.
        Each line moves on by at least one character, which the source
        does not (see the findings). */
    method DrawText(text: seq<char>, x: real, y: real, z: real, fontSize: real,
                    alignment: TextLayout.Alignment, color: Color,
                    maxLineWidth: Option<real>, clipArea: Option<Corners>, ghost lineOf: seq<char> -> (nat, real))
      requires Valid()
      requires Breaks(lineOf, MetricsFor(text, fontSize, z, |drawDatas|), maxLineWidth)
      modifies this`glyphs, this`drawDatas
      ensures Valid()
      ensures drawDatas == old(drawDatas) + [TextDrawData(clipArea, color)]
      ensures glyphs == old(glyphs) + TextQueue(MetricsFor(text, fontSize, z, |old(drawDatas)|), lineOf,
                                                maxLineWidth, alignment, x, y, fontSize * 1.25, text)
    {
      var drawDataIndex := |drawDatas|;
      drawDatas := drawDatas + [TextDrawData(clipArea, color)];
      var metrics := CollectMetrics(text, fontSize, z, drawDataIndex);
      MetricsForCall(text, fontSize, z, drawDataIndex);
      var lineHeight := fontSize * 1.25;
      QueueIndexed(glyphs, |drawDatas|, metrics, lineOf, maxLineWidth, alignment, x, y, lineHeight, text,
                   fontSize, z, drawDataIndex);
      QueueText(metrics, lineOf, text, x, y, lineHeight, alignment, maxLineWidth);
    }

    /** The line loop of `draw_text`: each line's glyphs, from the base x
        (or the aligned start) and one line height further down. */
    method QueueText(metrics: Metrics, ghost lineOf: seq<char> -> (nat, real), text: seq<char>,
                     x: real, y: real, lineHeight: real, alignment: TextLayout.Alignment, maxLineWidth: Option<real>)
      requires AllIn(metrics, text) && Breaks(lineOf, metrics, maxLineWidth)
      modifies this`glyphs
      ensures glyphs == old(glyphs) + TextQueue(metrics, lineOf, maxLineWidth, alignment, x, y, lineHeight, text)
    {
      var cursorY := y;
      var textLeft := text;
      while |textLeft| > 0
        invariant AllIn(metrics, textLeft)
        invariant old(glyphs) + TextQueue(metrics, lineOf, maxLineWidth, alignment, x, y, lineHeight, text) ==
          glyphs + TextQueue(metrics, lineOf, maxLineWidth, alignment, x, cursorY, lineHeight, textLeft)
        decreases |textLeft|
      {
        textLeft := QueueNextLine(metrics, lineOf, textLeft, x, cursorY, lineHeight, alignment, maxLineWidth);
        cursorY := cursorY + lineHeight;
      }
      assert glyphs + [] == glyphs;
    }

    /** One turn of the line loop of `draw_text`: the glyphs of the line
        `text` starts with, after which the queue goes on with the text
        after the line, one line height down. */
    method QueueNextLine(metrics: Metrics, ghost lineOf: seq<char> -> (nat, real), text: seq<char>,
                         x: real, y: real, lineHeight: real, alignment: TextLayout.Alignment, maxLineWidth: Option<real>)
      returns (rest: seq<char>)
      requires |text| > 0 && AllIn(metrics, text) && Breaks(lineOf, metrics, maxLineWidth)
      modifies this`glyphs
      ensures AllIn(metrics, rest) && |rest| < |text|
      ensures old(glyphs) + TextQueue(metrics, lineOf, maxLineWidth, alignment, x, y, lineHeight, text) ==
        glyphs + TextQueue(metrics, lineOf, maxLineWidth, alignment, x, y + lineHeight, lineHeight, rest)
    {
      var found, lineWidth := GetLineLengthAndWidth(metrics, maxLineWidth, text);
      var lineLen := Max(found, 1);
      var cursorX := x;
      if maxLineWidth.Some? {
        cursorX := GetLineStartX(cursorX, lineWidth, maxLineWidth.value, alignment);
      }
      ghost var done := glyphs;
      QueueLine(metrics, text, lineLen, cursorX, y);
      AllInDrop(metrics, text, lineLen);
      rest := MoveForwardChars(text, lineLen);
      TextQueueStep(metrics, lineOf, maxLineWidth, alignment, x, y, lineHeight, text, done, glyphs, rest);
    }

    /** `compose_draw_call`: the quads of every queued glyph, then an empty
        glyph queue. The draw data entries are kept. */
    method ComposeDrawCall() returns (quads: seq<Quad>)
      requires Valid() && dpiFactor != 0.0
      modifies this`glyphs
      ensures Valid() && glyphs == [] && drawDatas == old(drawDatas)
      ensures quads == Composed(old(glyphs), drawDatas, dpiFactor)
    {
      quads := [];
      for i := 0 to |glyphs|
        invariant Indexed(glyphs[i..], |drawDatas|)
        invariant quads + Composed(glyphs[i..], drawDatas, dpiFactor) == Composed(glyphs, drawDatas, dpiFactor)
      {
        var glyph := glyphs[i];
        assert glyphs[i..][1..] == glyphs[i + 1..];
        quads := quads + GlyphQuads(glyph, drawDatas[glyph.drawData], dpiFactor);
      }
      glyphs := [];
    }
  }
}
