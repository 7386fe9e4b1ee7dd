/**
 * The 8x8 bitmap font provider of `src/text/fonts/font8x8.rs`: glyph ids,
 * advances, the raw metrics found by scanning a glyph's bitmap for empty
 * columns and rows (memoised), the choice of bitmap, and the pixel rule
 * used when the bitmap is copied into the glyph atlas.
 *
 * The glyph tables of the external `font8x8` crate are a parameter; only
 * their sizes are assumed.
 */
module Font8x8 {
  import opened Wrappers
  import opened Types
  import opened RustInt
  import GlyphAtlas

  /** Eight rows of eight pixels; bit x of row y is pixel (x, y). */
  type Bitmap = b: seq<bv8> | |b| == 8 witness [0, 0, 0, 0, 0, 0, 0, 0]

  /** The glyph tables of the `font8x8` crate that `get_bitmap` indexes. */
  datatype Tables = Tables(basic: seq<Bitmap>, control: seq<Bitmap>, latin: seq<Bitmap>,
                           box: seq<Bitmap>, block: seq<Bitmap>, hiragana: seq<Bitmap>,
                           greek: seq<Bitmap>, sga: seq<Bitmap>, misc: seq<Bitmap>)

  predicate TablesOk(t: Tables)
  {
    |t.basic| == 128 && |t.control| == 32 && |t.latin| == 96 && |t.box| == 128 &&
    |t.block| == 32 && |t.hiragana| == 96 && |t.greek| == 58 && |t.sga| == 26 && |t.misc| == 10
  }

  predicate Bit(row: bv8, x: nat)
    requires x < 8
  {
    row & ((1 as bv8) << x) != 0
  }

  predicate NonEmpty(b: Bitmap)
  {
    exists y :: 0 <= y < 8 && b[y] != 0
  }

  // ---------------------------------------------------------------------
  // Ids, advances, scaling

  /** `get_glyph_id`: the code point. */
  function GetGlyphId(c: char): (id: nat)
    ensures id == c as nat
  {
    c as nat
  }

  /** `scale`: `i * font_size / 10` with truncating division. */
  function Scale(i: int, fontSize: int): (s: int)
    ensures 0 <= i * fontSize ==> 0 <= i * fontSize - 10 * s < 10
    ensures i * fontSize < 0 ==> -10 < i * fontSize - 10 * s <= 0
  {
    Div(i * fontSize, 10)
  }

  datatype Advance = Advance(advanceX: int, advanceY: int)

  /** `get_line_advance`: lines are `font_size + 3` apart. */
  function GetLineAdvance(fontSize: int): (a: Advance)
    ensures a.advanceX == 0 && a.advanceY - fontSize == 3
  {
    Advance(0, fontSize + 3)
  }

  // ---------------------------------------------------------------------
  // Bitmaps

  /** `get_missing_bitmap`: a hollow rectangle. */
  const MissingBitmap: Bitmap := [0x7E, 0x42, 0x42, 0x42, 0x42, 0x42, 0x7E, 0x0]

  /** The table entry for an id, before the emptiness test. */
  function TableEntry(t: Tables, u: nat): Option<Bitmap>
    requires TablesOk(t)
  {
    if u == 0 then Some(MissingBitmap)
    else if u <= 0x7F then Some(t.basic[u])
    else if 0x80 <= u <= 0x9F then Some(t.control[u - 0x80])
    else if 0xA0 <= u <= 0xFF then Some(t.latin[u - 0xA0])
    else if 0x2500 <= u <= 0x257F then Some(t.box[u - 0x2500])
    else if 0x2580 <= u <= 0x259F then Some(t.block[u - 0x2580])
    else if 0x3040 <= u <= 0x309F then Some(t.hiragana[u - 0x3040])
    else if 0x390 <= u <= 0x3C9 then Some(t.greek[u - 0x390])
    else if 0xE541 <= u <= 0xE55A then Some(t.sga[u - 0xE541])
    else if u == 0x20A7 then Some(t.misc[0])
    else if u == 0x192 then Some(t.misc[1])
    else if u == 0x2310 then Some(t.misc[4])
    else if u == 0x2264 then Some(t.misc[5])
    else if u == 0x2265 then Some(t.misc[6])
    else if u == 0x1EF2 then Some(t.misc[8])
    else if u == 0x1EF3 then Some(t.misc[9])
    else None
  }

  /** `get_bitmap`: the table entry, unless it is all zero. */
  function GetBitmap(t: Tables, id: nat): (b: Option<Bitmap>)
    requires TablesOk(t)
    ensures b.Some? <==> TableEntry(t, id).Some? && NonEmpty(TableEntry(t, id).value)
    ensures b.Some? ==> b == TableEntry(t, id)
  {
    match TableEntry(t, id)
    case None => None
    case Some(b) => if NonEmpty(b) then Some(b) else None
  }

  /** `get_bitmap`, with its loop looking for a non-zero row. */
  method FindBitmap(t: Tables, id: nat) returns (b: Option<Bitmap>)
    requires TablesOk(t)
    ensures b == GetBitmap(t, id)
  {
    var entry := TableEntry(t, id);
    if entry.None? {
      return None;
    }
    var bitmap := entry.value;
    for y := 0 to 8
      invariant forall k :: 0 <= k < y ==> bitmap[k] == 0
    {
      if bitmap[y] != 0 {
        return Some(bitmap);
      }
    }
    return None;
  }

  /** Id 0 is the missing-glyph rectangle, and an id outside every range
      has no bitmap. */
  lemma BitmapRanges(t: Tables, id: nat)
    requires TablesOk(t)
    ensures id == 0 ==> GetBitmap(t, id) == Some(MissingBitmap)
    ensures (0x100 <= id < 0x192 || 0x193 <= id < 0x390 || 0x3CA <= id < 0x1EF2 ||
             0x1EF4 <= id < 0x20A7 || 0x20A8 <= id < 0x2264 || 0x2266 <= id < 0x2310 ||
             0x2311 <= id < 0x2500 || 0x25A0 <= id < 0x3040 || 0x30A0 <= id < 0xE541 ||
             0xE55A < id) ==> GetBitmap(t, id).None?
  {
    if id == 0 {
      assert MissingBitmap[0] != 0;
    }
  }

  /** The bitmap `render_glyph` draws: the glyph's own, or the rectangle. */
  function ChooseBitmap(t: Tables, id: nat): (b: Bitmap)
    requires TablesOk(t)
    ensures GetBitmap(t, id).None? ==> b == MissingBitmap
    ensures GetBitmap(t, id).Some? ==> b == GetBitmap(t, id).value
  {
    match GetBitmap(t, id)
    case Some(b) => b
    case None => MissingBitmap
  }

  // ---------------------------------------------------------------------
  // Empty columns and rows

  predicate ColumnUsed(b: Bitmap, x: nat)
    requires x < 8
  {
    exists y :: 0 <= y < 8 && Bit(b[y], x)
  }

  /** The leftmost used column from `x` on. */
  function FirstColumn(b: Bitmap, x: nat): (c: Option<nat>)
    requires x <= 8
    ensures c.Some? ==> x <= c.value < 8 && ColumnUsed(b, c.value) &&
                        forall k :: x <= k < c.value ==> !ColumnUsed(b, k)
    ensures c.None? ==> forall k :: x <= k < 8 ==> !ColumnUsed(b, k)
    decreases 8 - x
  {
    if x == 8 then None else if ColumnUsed(b, x) then Some(x) else FirstColumn(b, x + 1)
  }

  /** The rightmost used column below `n`. */
  function LastColumn(b: Bitmap, n: nat): (c: Option<nat>)
    requires n <= 8
    ensures c.Some? ==> c.value < n && ColumnUsed(b, c.value) &&
                        forall k :: c.value < k < n ==> !ColumnUsed(b, k)
    ensures c.None? ==> forall k :: 0 <= k < n ==> !ColumnUsed(b, k)
  {
    if n == 0 then None else if ColumnUsed(b, n - 1) then Some(n - 1) else LastColumn(b, n - 1)
  }

  /** The first non-zero row below `n`. */
  function FirstRow(b: Bitmap, n: nat): (r: Option<nat>)
    requires n <= 8
    ensures r.Some? ==> r.value < n && b[r.value] != 0 && forall k :: 0 <= k < r.value ==> b[k] == 0
    ensures r.None? ==> forall k :: 0 <= k < n ==> b[k] == 0
  {
    if n == 0 then None
    else match FirstRow(b, n - 1)
      case Some(r) => Some(r)
      case None => if b[n - 1] != 0 then Some(n - 1) else None
  }

  /** The last non-zero row below `n`. */
  function LastRow(b: Bitmap, n: nat): (r: Option<nat>)
    requires n <= 8
    ensures r.Some? ==> r.value < n && b[r.value] != 0 && forall k :: r.value < k < n ==> b[k] == 0
    ensures r.None? ==> forall k :: 0 <= k < n ==> b[k] == 0
  {
    if n == 0 then None else if b[n - 1] != 0 then Some(n - 1) else LastRow(b, n - 1)
  }

  /** `get_empty_pixels_left_right`: empty columns on the left and right. */
  function LeftRight(t: Tables, id: nat): Option<(int, int)>
    requires TablesOk(t)
  {
    match GetBitmap(t, id)
    case None => None
    case Some(b) =>
      var left := FirstColumn(b, 0);
      var right := LastColumn(b, 8);
      if left.Some? && right.Some? then Some((left.value, 7 - right.value)) else None
  }

  /** `get_empty_pixels_top_bottom`: empty rows above and below. */
  function TopBottom(t: Tables, id: nat): Option<(int, int)>
    requires TablesOk(t)
  {
    match GetBitmap(t, id)
    case None => None
    case Some(b) =>
      var top := FirstRow(b, 8);
      var bottom := LastRow(b, 8);
      if top.Some? && bottom.Some? then Some((top.value, 7 - bottom.value)) else None
  }

  /** A non-zero row has a set bit. */
  lemma RowHasBit(row: bv8)
    ensures row != 0 <==> Bit(row, 0) || Bit(row, 1) || Bit(row, 2) || Bit(row, 3) ||
                          Bit(row, 4) || Bit(row, 5) || Bit(row, 6) || Bit(row, 7)
  {
  }

  /** A bitmap that is not empty has a used column. */
  lemma NonEmptyHasColumn(b: Bitmap)
    requires NonEmpty(b)
    ensures exists x :: 0 <= x < 8 && ColumnUsed(b, x)
  {
    var y :| 0 <= y < 8 && b[y] != 0;
    RowHasBit(b[y]);
    var x :| 0 <= x < 8 && Bit(b[y], x);
    assert ColumnUsed(b, x);
  }

  /** Both scans succeed exactly for the ids that have a bitmap, and then
      they leave a used column, and a non-empty row, on each side. */
  lemma EmptyPixelsBounds(t: Tables, id: nat)
    requires TablesOk(t)
    ensures LeftRight(t, id).Some? <==> GetBitmap(t, id).Some?
    ensures TopBottom(t, id).Some? <==> GetBitmap(t, id).Some?
    ensures LeftRight(t, id).Some? ==>
      var (l, r) := LeftRight(t, id).value;
      0 <= l && 0 <= r && l + r <= 7
    ensures TopBottom(t, id).Some? ==>
      var (top, bottom) := TopBottom(t, id).value;
      0 <= top && 0 <= bottom && top + bottom <= 7
  {
    match GetBitmap(t, id)
    case None =>
    case Some(b) =>
      NonEmptyHasColumn(b);
      var x :| 0 <= x < 8 && ColumnUsed(b, x);
      assert FirstColumn(b, 0).Some? && LastColumn(b, 8).Some?;
      assert FirstColumn(b, 0).value <= x <= LastColumn(b, 8).value;
      var y :| 0 <= y < 8 && b[y] != 0;
      assert FirstRow(b, 8).Some? && LastRow(b, 8).Some?;
      assert FirstRow(b, 8).value <= y <= LastRow(b, 8).value;
  }

  // ---------------------------------------------------------------------
  // The scanning loops

  /** Bit `x` of row `y` was visited when `n` pixels have been, row by row. */
  ghost predicate Seen(b: Bitmap, n: nat, x: nat)
    requires x < 8
  {
    exists y :: 0 <= y < 8 && y * 8 + x < n && Bit(b[y], x)
  }

  /** What the two accumulators of the left/right scan hold after `n` pixels. */
  ghost predicate LeftRightSoFar(b: Bitmap, n: nat, left: Option<int>, right: Option<int>)
  {
    left.None? == right.None? &&
    (left.None? ==> forall x :: 0 <= x < 8 ==> !Seen(b, n, x)) &&
    (left.Some? ==> 0 <= left.value < 8 && Seen(b, n, left.value) &&
                    forall x :: 0 <= x < left.value ==> !Seen(b, n, x)) &&
    (right.Some? ==> 0 <= right.value < 8 && Seen(b, n, right.value) &&
                     forall x :: right.value < x < 8 ==> !Seen(b, n, x))
  }

  lemma SeenStep(b: Bitmap, y: nat, x: nat, n: nat, n': nat)
    requires y < 8 && x < 8 && n == y * 8 + x && n' == n + 1
    ensures forall k :: 0 <= k < 8 ==> (Seen(b, n', k) <==> Seen(b, n, k) || (k == x && Bit(b[y], x)))
  {
    forall k | 0 <= k < 8
      ensures Seen(b, n', k) ==> Seen(b, n, k) || (k == x && Bit(b[y], x))
    {
      if Seen(b, n', k) {
        var r :| 0 <= r < 8 && r * 8 + k < n' && Bit(b[r], k);
        if r * 8 + k == n {
          assert r == y && k == x;
        }
      }
    }
  }

  lemma SeenAll(b: Bitmap)
    ensures forall x :: 0 <= x < 8 ==> (Seen(b, 64, x) <==> ColumnUsed(b, x))
  {
  }

  /** `get_empty_pixels_left_right`, scanning every pixel. */
  method GetEmptyPixelsLeftRight(t: Tables, id: nat) returns (res: Option<(int, int)>)
    requires TablesOk(t)
    ensures res == LeftRight(t, id)
  {
    var bitmap := FindBitmap(t, id);
    if bitmap.None? {
      return None;
    }
    var b := bitmap.value;
    var left: Option<int> := None;
    var right: Option<int> := None;
    for y := 0 to 8
      invariant LeftRightSoFar(b, y * 8, left, right)
    {
      for x := 0 to 8
        invariant LeftRightSoFar(b, y * 8 + x, left, right)
      {
        ghost var (l0, r0) := (left, right);
        if Bit(b[y], x) {
          if x < left.GetOr(8) {
            left := Some(x);
          }
          if x > right.GetOr(-1) {
            right := Some(x);
          }
        }
        LeftRightStep(b, y, x, l0, r0, left, right);
      }
    }
    LeftRightEnd(b, left, right);
    if left.None? || right.None? {
      return None;
    }
    return Some((left.value, 7 - right.value));
  }

  /** One pixel of the left/right scan. */
  lemma LeftRightStep(b: Bitmap, y: nat, x: nat, left: Option<int>, right: Option<int>,
                      left': Option<int>, right': Option<int>)
    requires y < 8 && x < 8 && LeftRightSoFar(b, y * 8 + x, left, right)
    requires left' == if Bit(b[y], x) && x < left.GetOr(8) then Some(x) else left
    requires right' == if Bit(b[y], x) && x > right.GetOr(-1) then Some(x) else right
    ensures LeftRightSoFar(b, y * 8 + x + 1, left', right')
  {
    SeenStep(b, y, x, y * 8 + x, y * 8 + x + 1);
  }

  /** After the last pixel the accumulators are the outermost used columns. */
  lemma LeftRightEnd(b: Bitmap, left: Option<int>, right: Option<int>)
    requires LeftRightSoFar(b, 64, left, right)
    ensures left.None? <==> FirstColumn(b, 0).None?
    ensures left.None? <==> LastColumn(b, 8).None?
    ensures left.Some? ==> left.value == FirstColumn(b, 0).value
    ensures right.Some? ==> right.value == LastColumn(b, 8).value
  {
    SeenAll(b);
    if left.Some? {
      assert FirstColumn(b, 0) == Some(left.value as nat);
      assert LastColumn(b, 8) == Some(right.value as nat);
    }
  }

  /** `get_empty_pixels_top_bottom`, scanning the rows. */
  method GetEmptyPixelsTopBottom(t: Tables, id: nat) returns (res: Option<(int, int)>)
    requires TablesOk(t)
    ensures res == TopBottom(t, id)
  {
    var bitmap := FindBitmap(t, id);
    if bitmap.None? {
      return None;
    }
    var b := bitmap.value;
    var top: Option<nat> := None;
    var bottom: Option<nat> := None;
    for i := 0 to 8
      invariant top == FirstRow(b, i) && bottom == LastRow(b, i)
    {
      if b[i] != 0 {
        if top.None? {
          top := Some(i);
        }
        bottom := Some(i);
      }
    }
    if top.None? || bottom.None? {
      return None;
    }
    return Some((top.value, 7 - bottom.value));
  }

  // ---------------------------------------------------------------------
  // Raw metrics

  const Space: nat := 32

  /** What `get_raw_metrics` answers: a fixed box for the space, otherwise
      the bitmap's bounding box (the whole 8x8 cell when there is none). */
  function RawMetrics(t: Tables, id: nat): RectPx
    requires TablesOk(t)
  {
    if id == Space then RectPx(0, 8, 3, 0)
    else
      var (left, right) := LeftRight(t, id).GetOr((0, 0));
      var (top, bottom) := TopBottom(t, id).GetOr((0, 0));
      RectPx(left, top, 8 - (left + right), 8 - (top + bottom))
  }

  /** For every glyph with a bitmap (other than the space) the raw box is
      one to eight pixels wide and high and lies inside the cell, and it
      holds every set pixel of the bitmap. */
  lemma RawMetricsBox(t: Tables, id: nat)
    requires TablesOk(t)
    ensures var m := RawMetrics(t, id);
      id != Space ==> 0 <= m.x && 0 <= m.y && m.x + m.width <= 8 && m.y + m.height <= 8 &&
                      (GetBitmap(t, id).Some? ==> 1 <= m.width <= 8 && 1 <= m.height <= 8) &&
                      (GetBitmap(t, id).None? ==> m == RectPx(0, 0, 8, 8))
    ensures id == Space ==> RawMetrics(t, id) == RectPx(0, 8, 3, 0)
  {
    EmptyPixelsBounds(t, id);
  }

  /** Every set pixel of a glyph's bitmap lies inside its raw box, so the
      crop to the box loses nothing. */
  lemma RawMetricsHoldInk(t: Tables, id: nat, x: nat, y: nat)
    requires TablesOk(t) && id != Space && GetBitmap(t, id).Some?
    requires x < 8 && y < 8 && Bit(GetBitmap(t, id).value[y], x)
    ensures var m := RawMetrics(t, id);
      m.x <= x < m.x + m.width && m.y <= y < m.y + m.height
  {
    var b := GetBitmap(t, id).value;
    assert ColumnUsed(b, x);
    EmptyPixelsBounds(t, id);
    RowHasBit(b[y]);
  }

  /** `Font8x8Provider` with its metric memo. */
  class Provider {
    var metrics: map<nat, RectPx>

    /** Every memoised entry is the raw metric of its id. */
    ghost predicate MemoOk(t: Tables)
      reads this
      requires TablesOk(t)
    {
      forall id :: id in metrics ==> metrics[id] == RawMetrics(t, id)
    }

    /** `Font8x8Provider::new`: nothing memoised. */
    constructor ()
      ensures metrics == map[]
    {
      metrics := map[];
    }

    /** `get_raw_metrics`: answers from the memo when it can, otherwise
        scans the bitmap and memoises the answer (never for the space). */
    method GetRawMetrics(t: Tables, id: nat) returns (m: RectPx)
      requires TablesOk(t) && MemoOk(t)
      modifies this
      ensures MemoOk(t) && m == RawMetrics(t, id)
      ensures metrics == if id == Space || id in old(metrics) then old(metrics) else old(metrics)[id := m]
    {
      if id == Space {
        return RectPx(0, 8, 3, 0);
      } else if id in metrics {
        return metrics[id];
      }
      var lr := GetEmptyPixelsLeftRight(t, id);
      var tb := GetEmptyPixelsTopBottom(t, id);
      var (left, right) := lr.GetOr((0, 0));
      var (top, bottom) := tb.GetOr((0, 0));
      m := RectPx(left, top, 8 - (left + right), 8 - (top + bottom));
      metrics := metrics[id := m];
    }

    /** `get_advance`: the raw width of the glyph advanced from, scaled, plus
        one pixel. */
    method GetAdvance(t: Tables, from: nat, to: nat, fontSize: int) returns (a: Advance)
      requires TablesOk(t) && MemoOk(t)
      modifies this
      ensures MemoOk(t)
      ensures a == Advance(Scale(RawMetrics(t, from).width, fontSize) + 1, 0)
    {
      var m := GetRawMetrics(t, from);
      a := Advance(Scale(m.width, fontSize) + 1, 0);
    }

    /** `render_glyph` and `render_bitmap`: reserves a spot of the raw box's
        size for the glyph and, when the spot is new, the pixels to upload
        into it. */
    method RenderGlyph(t: Tables, cache: GlyphAtlas.GlyphCache, id: nat)
      returns (res: Result<RectPx, GlyphAtlas.GlyphNotRenderedError>, upload: Option<seq<seq<bv8>>>)
      requires TablesOk(t) && MemoOk(t) && cache.Valid()
      modifies this, cache, cache.lines
      ensures MemoOk(t) && cache.Valid()
      ensures var m := RawMetrics(t, id);
        var (r, c) := GlyphAtlas.ReserveUvsSpec(old(cache.V()), GlyphAtlas.CacheIdentifier(id, None), m.width, m.height);
        cache.V() == c &&
        (r.Err? ==> res == Err(r.error) && upload.None?) &&
        (r.Ok? ==> res == Ok(r.value.0) &&
                   upload == if r.value.1 then Some(GlyphPixels(ChooseBitmap(t, id), m)) else None)
    {
      ghost var c0 := cache.V();
      var found := FindBitmap(t, id);
      var bitmap := if found.Some? then found.value else MissingBitmap;
      assert bitmap == ChooseBitmap(t, id);
      var m := GetRawMetrics(t, id);
      assert cache.V() == c0 && cache.Valid();
      var key := GlyphAtlas.CacheIdentifier(id, None);
      var r := cache.ReserveUvs(key, m.width, m.height);
      assert (r, cache.V()) == GlyphAtlas.ReserveUvsSpec(c0, key, m.width, m.height);
      if r.Err? {
        return Err(r.error), None;
      }
      var (spot, isNew) := r.value;
      upload := if isNew then Some(GlyphPixels(bitmap, m)) else None;
      res := Ok(spot);
    }
  }

  // ---------------------------------------------------------------------
  // The pixel rule of render_bitmap

  /** The value uploaded for pixel (x, y) of the spot: 0xFF where the bit at
      (x + x offset, y + y offset) of the bitmap is set, 0 elsewhere. */
  function Pixel(b: Bitmap, m: RectPx, x: nat, y: nat): (v: bv8)
    requires 0 <= m.x && 0 <= m.y && x + m.x < 8 && y + m.y < 8
    ensures v == 0xFF <==> Bit(b[y + m.y], x + m.x)
    ensures v == 0 <==> !Bit(b[y + m.y], x + m.x)
  {
    if b[y + m.y] & ((1 as bv8) << (x + m.x)) == 0 then 0 else 0xFF
  }

  /** The rows of pixels uploaded into a spot of the box's size. Pixels
      that would fall outside the 8x8 cell (only possible for a box that
      does not come from the bitmap) are 0. */
  function GlyphPixels(b: Bitmap, m: RectPx): (p: seq<seq<bv8>>)
    ensures |p| == if m.height < 0 then 0 else m.height
    ensures forall y :: 0 <= y < |p| ==> |p[y]| == if m.width < 0 then 0 else m.width
  {
    var h := if m.height < 0 then 0 else m.height;
    var w := if m.width < 0 then 0 else m.width;
    seq(h, y requires 0 <= y < h =>
      seq(w, x requires 0 <= x < w =>
        if 0 <= m.x && 0 <= m.y && x + m.x < 8 && y + m.y < 8 then Pixel(b, m, x, y) else 0))
  }

  /** An uploaded pixel is lit iff the bitmap's bit under it is set. */
  ghost predicate LitIffInk(b: Bitmap, m: RectPx)
  {
    0 <= m.x && 0 <= m.y && m.x + m.width <= 8 && m.y + m.height <= 8 &&
    var p := GlyphPixels(b, m);
    forall y, x :: 0 <= y < |p| && 0 <= x < |p[y]| ==> (p[y][x] == 0xFF <==> Bit(b[y + m.y], x + m.x))
  }

  /** The box holds every set bit of the bitmap. */
  ghost predicate HoldsInk(b: Bitmap, m: RectPx)
  {
    forall y, x :: 0 <= y < 8 && 0 <= x < 8 && Bit(b[y], x) ==>
      m.x <= x < m.x + m.width && m.y <= y < m.y + m.height
  }

  /** One uploaded pixel inside the cell. */
  lemma PixelAt(b: Bitmap, m: RectPx, row: nat, col: nat)
    requires 0 <= m.x && 0 <= m.y && m.x + m.width <= 8 && m.y + m.height <= 8
    requires row < m.height && col < m.width
    ensures var p := GlyphPixels(b, m);
      row < |p| && col < |p[row]| && p[row][col] == Pixel(b, m, col, row)
  {
  }

  /** Inside the cell, an uploaded pixel is lit iff the bit under it is set. */
  lemma {:induction false} PixelsAreBits(b: Bitmap, m: RectPx)
    requires 0 <= m.x && 0 <= m.y && m.x + m.width <= 8 && m.y + m.height <= 8
    ensures LitIffInk(b, m)
  {
    var p := GlyphPixels(b, m);
    forall y, x | 0 <= y < |p| && 0 <= x < |p[y]|
      ensures p[y][x] == 0xFF <==> Bit(b[y + m.y], x + m.x)
    {
      PixelAt(b, m, y, x);
    }
  }

  /** Rendering a glyph with a bitmap uploads exactly its ink: the spot
      holds every set bit of the bitmap, and a pixel of the spot is lit iff
      the bitmap's bit under it is set. */
  lemma UploadIsTheInk(t: Tables, id: nat)
    requires TablesOk(t) && id != Space && GetBitmap(t, id).Some?
    ensures HoldsInk(GetBitmap(t, id).value, RawMetrics(t, id))
    ensures LitIffInk(GetBitmap(t, id).value, RawMetrics(t, id))
  {
    var b := GetBitmap(t, id).value;
    var m := RawMetrics(t, id);
    RawMetricsBox(t, id);
    forall y, x | 0 <= y < 8 && 0 <= x < 8 && Bit(b[y], x)
      ensures m.x <= x < m.x + m.width && m.y <= y < m.y + m.height
    {
      RawMetricsHoldInk(t, id, x, y);
    }
    PixelsAreBits(b, m);
  }
}
