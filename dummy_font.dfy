/**
 * The placeholder font of `src/text/fonts/dummy.rs`: every glyph is an
 * empty square whose side grows in steps of eight pixels with the font
 * size. Font sizes are `f32` in the source and reals here.
 */
module DummyFont {
  import opened Wrappers
  import opened Types
  import opened RustInt

  /** `f32::round` on a value of at least one: halves round up, away from zero. */
  function RoundUp(v: real): (n: int)
    requires v >= 1.0
    ensures 1 <= n && (n as real) - 0.5 <= v < (n as real) + 0.5
  {
    (v + 0.5).Floor
  }

  /** `get_size`: the font size over 16, at least 1, rounded, times 8. */
  function GetSize(fontSize: real): (size: int)
    ensures 8 <= size && size % 8 == 0
  {
    var v := if fontSize / 16.0 >= 1.0 then fontSize / 16.0 else 1.0;
    RoundUp(v) * 8
  }

  /** `get_glyph_id`: the code point. */
  function GetGlyphId(c: char): (id: nat)
    ensures id == c as nat
  {
    c as nat
  }

  /** `get_line_height`: four thirds of the glyph size, truncated. */
  function GetLineHeight(fontSize: real): (h: int)
    ensures var s := GetSize(fontSize); 0 <= 4 * s - 3 * h < 3
  {
    Div(GetSize(fontSize) * 4, 3)
  }

  /** `get_advance`: the glyph size plus one, for any pair of glyphs. */
  function GetAdvance(from: nat, to: nat, fontSize: real): (a: Option<int>)
    ensures a.Some? && a.value == GetSize(fontSize) + 1
  {
    Some(GetSize(fontSize) + 1)
  }

  /** `get_metric`: a square of the glyph size, centred vertically in the
      line with truncating division. */
  function GetMetric(id: nat, fontSize: real): (m: RectPx)
    ensures m.x == 0 && m.width == m.height == GetSize(fontSize)
    ensures var room := GetLineHeight(fontSize) - GetSize(fontSize);
      0 <= room - 2 * m.y <= 1
  {
    var size := GetSize(fontSize);
    RectPx(0, Div(GetLineHeight(fontSize) - size, 2), size, size)
  }

  /** `render_glyph`: always succeeds with the empty rectangle. */
  function RenderGlyph(id: nat, fontSize: real): (r: Option<RectPx>)
    ensures r == Some(RectPx(0, 0, 0, 0))
  {
    Some(RectPx(0, 0, 0, 0))
  }

  /** Every glyph square lies inside its line, at least an eighth of the
      glyph size below the line's top, and the advance clears the square. */
  lemma MetricFitsLine(id: nat, fontSize: real)
    ensures var m := GetMetric(id, fontSize);
      var s := GetSize(fontSize);
      s / 8 <= m.y && m.y + m.height <= GetLineHeight(fontSize) &&
      m.x + m.width < GetAdvance(id, id, fontSize).value
  {
    var s := GetSize(fontSize);
    var h := GetLineHeight(fontSize);
    var k := s / 8;
    assert s == 8 * k;
    assert 4 * s - 3 * h < 3;
    assert h >= 10 * k;
  }
}
