/**
 * The glyph atlas of `src/text/glyph_cache.rs`: a texture split into
 * horizontal lines stacked from the top, and a map from glyph identifiers
 * to (weak references to) the spots holding their rasterised bitmaps.
 *
 * A glyph not in the map is placed, in this order, in a gap of an existing
 * line, in a new line below the last one, or in a run of spots of an
 * existing line that were not used while composing this frame, which are
 * evicted. The texture itself, and the clearing of evicted areas, are GL
 * effects and are not part of this model.
 */
module GlyphAtlas {
  import opened Wrappers
  import opened Types
  import opened RustInt
  import opened GlyphLines

  /** `CacheIdentifier::new(glyph id, font size)`. */
  datatype CacheIdentifier = CacheIdentifier(glyphId: nat, fontSize: Option<int>)

  datatype GlyphNotRenderedError = GlyphCacheFull

  /** The value of a `GlyphCache`, without the texture handle. `nextId` is
      the identity the next allocated spot gets. */
  datatype CacheV = CacheV(width: int, height: int, lines: seq<LineV>,
                           cache: map<CacheIdentifier, nat>, nextId: nat)

  // ---------------------------------------------------------------------
  // Specification functions, one per operation

  /** Upgrading a weak reference: the first line (from `a` on) and the index
      in it of the spot with this identity, if it is still reserved. */
  function Locate(ls: seq<LineV>, w: nat, a: nat): (res: Option<(nat, nat)>)
    ensures res.Some? ==> a <= res.value.0 < |ls| && res.value.1 < |ls[res.value.0].reserved| &&
                          ls[res.value.0].reserved[res.value.1].id == w &&
                          IndexOfId(ls[res.value.0].reserved, w) == Some(res.value.1) &&
                          forall b, i :: a <= b < res.value.0 && 0 <= i < |ls[b].reserved| ==> ls[b].reserved[i].id != w
    ensures res.None? ==> forall b, i :: a <= b < |ls| && 0 <= i < |ls[b].reserved| ==> ls[b].reserved[i].id != w
    decreases |ls| - a
  {
    if a >= |ls| then None
    else match IndexOfId(ls[a].reserved, w)
      case Some(i) => Some((a, i))
      case None => Locate(ls, w, a + 1)
  }

  /** `get_uvs_from_cache`: a live entry's spot is marked used during this
      frame and returned; a dead entry is removed from the map. */
  function FromCacheSpec(c: CacheV, key: CacheIdentifier): (Option<Spot>, CacheV)
  {
    if key !in c.cache then (None, c)
    else match Locate(c.lines, c.cache[key], 0)
      case None => (None, c.(cache := c.cache - {key}))
      case Some((a, i)) =>
        var spot := c.lines[a].reserved[i].(status := UsedDuringThisFrame);
        (Some(spot), c.(lines := c.lines[a := c.lines[a].(reserved := c.lines[a].reserved[i := spot])]))
  }

  /** `reserve_uvs_from_existing` from line `a` on: each line in turn is
      asked to reserve, until the returned weak reference upgrades. */
  function ExistingSpec(ls: seq<LineV>, a: nat, width: int, height: int, canEvict: bool, id: nat)
    : (Option<Spot>, seq<LineV>)
    decreases |ls| - a
  {
    if a >= |ls| then (None, ls)
    else
      var (w, v') := ReserveSpec(ls[a], width, height, canEvict, id);
      var ls' := ls[a := v'];
      var up := if w.Some? then IndexOfId(v'.reserved, w.value) else None;
      if up.Some? then (Some(v'.reserved[up.value]), ls')
      else ExistingSpec(ls', a + 1, width, height, canEvict, id)
  }

  /** `MARGIN` plus, for every line, its height and a `GAP`: the sum the
      loop of `create_line` computes, over a prefix of the lines. */
  function SumHeights(ls: seq<LineV>): int
  {
    if |ls| == 0 then 0 else SumHeights(ls[..|ls| - 1]) + ls[|ls| - 1].height + GAP
  }

  /** The line `GlyphLine::new` makes. */
  function NewLineV(lineY: int, lineHeight: int, cacheWidth: int, cacheHeight: int): LineV
  {
    LineV(lineY, lineHeight, Div(lineHeight, 2), Min(lineHeight * 2, cacheHeight - MARGIN - lineY), cacheWidth, [])
  }

  /** `create_line`: if a `height`-high line fits below the others, the last
      line's maximum height is frozen to its height and the new line is
      pushed. */
  function CreateLineSpec(c: CacheV, height: int): Option<CacheV>
  {
    var total := MARGIN + SumHeights(c.lines);
    if total + height <= c.height - MARGIN then
      var n := |c.lines|;
      var frozen := if n == 0 then c.lines else c.lines[n - 1 := c.lines[n - 1].(maxHeight := c.lines[n - 1].height)];
      Some(c.(lines := frozen + [NewLineV(total, height, c.width, c.height)]))
    else None
  }

  /** `reserve_uvs_from_new_line`: create a line, then reserve in it without
      eviction. */
  function NewLineSpec(c: CacheV, width: int, height: int, id: nat): (Option<Spot>, CacheV)
  {
    match CreateLineSpec(c, height)
    case None => (None, c)
    case Some(c1) =>
      var n := |c1.lines| - 1;
      var (w, v') := ReserveSpec(c1.lines[n], width, height, false, id);
      var c2 := c1.(lines := c1.lines[n := v']);
      var up := if w.Some? then IndexOfId(v'.reserved, w.value) else None;
      if up.Some? then (Some(v'.reserved[up.value]), c2) else (None, c2)
  }

  /** The cache after a new spot was found for `key`. */
  function Record(c: CacheV, key: CacheIdentifier, spot: Spot): CacheV
  {
    c.(cache := c.cache[key := spot.id])
  }

  /** `reserve_uvs`: the cached spot and `false`, or a newly reserved spot
      and `true` (it must be rendered into), or `GlyphCacheFull`. */
  function ReserveUvsSpec(c: CacheV, key: CacheIdentifier, width: int, height: int)
    : (Result<(RectPx, bool), GlyphNotRenderedError>, CacheV)
  {
    var (hit, c1) := FromCacheSpec(c, key);
    if hit.Some? then (Ok((hit.value.texcoords, false)), c1)
    else MissSpec(c1, key, width, height)
  }

  /** A miss allocates one new spot identity and first tries the gaps of
      the existing lines. */
  function MissSpec(c: CacheV, key: CacheIdentifier, width: int, height: int)
    : (Result<(RectPx, bool), GlyphNotRenderedError>, CacheV)
  {
    var id := c.nextId;
    var c1 := c.(nextId := id + 1);
    var (s, ls) := ExistingSpec(c1.lines, 0, width, height, false, id);
    if s.Some? then (Ok((s.value.texcoords, true)), Record(c1.(lines := ls), key, s.value))
    else NewLineAttempt(c1.(lines := ls), key, width, height, id)
  }

  /** Then a new line. */
  function NewLineAttempt(c: CacheV, key: CacheIdentifier, width: int, height: int, id: nat)
    : (Result<(RectPx, bool), GlyphNotRenderedError>, CacheV)
  {
    var (s, c1) := NewLineSpec(c, width, height, id);
    if s.Some? then (Ok((s.value.texcoords, true)), Record(c1, key, s.value))
    else EvictAttempt(c1, key, width, height, id)
  }

  /** Then eviction in the existing lines; failing that, the cache is full. */
  function EvictAttempt(c: CacheV, key: CacheIdentifier, width: int, height: int, id: nat)
    : (Result<(RectPx, bool), GlyphNotRenderedError>, CacheV)
  {
    var (s, ls) := ExistingSpec(c.lines, 0, width, height, true, id);
    if s.Some? then (Ok((s.value.texcoords, true)), Record(c.(lines := ls), key, s.value))
    else (Err(GlyphCacheFull), c.(lines := ls))
  }

  function ExpireLine(v: LineV): LineV
  {
    v.(reserved := ExpireAll(v.reserved))
  }

  /** `GlyphCache::expire_one_step`. */
  function ExpireSpec(c: CacheV): CacheV
  {
    c.(lines := seq(|c.lines|, k requires 0 <= k < |c.lines| => ExpireLine(c.lines[k])))
  }

  // ---------------------------------------------------------------------
  // The invariant

  /** A spot of a line at `y`, `height` high, with an identity already handed out. */
  ghost predicate SpotOk(s: Spot, y: int, height: int, bound: nat)
  {
    s.texcoords.y == y && s.texcoords.height <= height && s.id < bound
  }

  /** A line as the cache keeps it: as wide as the texture, sorted, inside
      the texture vertically even at its maximum height, and holding spots
      of its own y no higher than itself. */
  ghost predicate LineOk(v: LineV, width: int, height: int, bound: nat)
  {
    v.cacheWidth == width && Sorted(v.reserved) &&
    v.y + v.height <= height - MARGIN && v.y + v.maxHeight <= height - MARGIN &&
    forall s :: s in v.reserved ==> SpotOk(s, v.y, v.height, bound)
  }

  /** The lines are stacked from MARGIN down, GAP apart, and every line but
      the last is frozen at its height. */
  ghost predicate Stacked(ls: seq<LineV>)
  {
    (|ls| > 0 ==> ls[0].y == MARGIN) &&
    forall k :: 0 <= k < |ls| - 1 ==> ls[k + 1].y == ls[k].y + ls[k].height + GAP && ls[k].height == ls[k].maxHeight
  }

  ghost predicate WellFormed(c: CacheV)
  {
    Stacked(c.lines) &&
    forall k :: 0 <= k < |c.lines| ==> LineOk(c.lines[k], c.width, c.height, c.nextId)
  }

  /** Beyond `WellFormed`: every line is as wide as the texture, its spots
      are packed, and no line has a negative height. */
  ghost predicate Tidy(c: CacheV)
  {
    forall k :: 0 <= k < |c.lines| ==>
      c.lines[k].cacheWidth == c.width && Packed(c.lines[k].reserved, c.width) && 0 <= c.lines[k].height
  }

  // ---------------------------------------------------------------------
  // Lemmas

  lemma {:induction false} SumHeightsIsNextY(ls: seq<LineV>)
    requires Stacked(ls) && |ls| > 0
    ensures MARGIN + SumHeights(ls) == ls[|ls| - 1].y + ls[|ls| - 1].height + GAP
  {
    var p := ls[..|ls| - 1];
    if |p| > 0 {
      assert Stacked(p) by {
        forall k | 0 <= k < |p| - 1
          ensures p[k + 1].y == p[k].y + p[k].height + GAP && p[k].height == p[k].maxHeight
        {
          assert p[k] == ls[k] && p[k + 1] == ls[k + 1];
        }
      }
      SumHeightsIsNextY(p);
      assert p[|p| - 1] == ls[|ls| - 2];
    }
  }

  /** `create_line` puts the new line GAP below the last one (or MARGIN from
      the top), and only when it fits above the bottom MARGIN; the previous
      last line's maximum height is frozen to its height. */
  lemma CreateLinePlacement(c: CacheV, height: int)
    requires Stacked(c.lines)
    ensures var r := CreateLineSpec(c, height);
      var n := |c.lines|;
      var y := if n == 0 then MARGIN else c.lines[n - 1].y + c.lines[n - 1].height + GAP;
      (r.Some? <==> y + height <= c.height - MARGIN) &&
      (r.Some? ==> |r.value.lines| == n + 1 && r.value.lines[n] == NewLineV(y, height, c.width, c.height) &&
                   (n > 0 ==> r.value.lines[n - 1] == c.lines[n - 1].(maxHeight := c.lines[n - 1].height)) &&
                   (forall k :: 0 <= k < n - 1 ==> r.value.lines[k] == c.lines[k]) &&
                   r.value.(lines := c.lines) == c)
  {
    if |c.lines| > 0 { SumHeightsIsNextY(c.lines); }
  }

  lemma ReserveKeepsLineOk(v: LineV, width: int, height: int, canEvict: bool, id: nat,
                           cw: int, ch: int, bound: nat)
    requires LineOk(v, cw, ch, bound) && id < bound
    ensures var (w, v') := ReserveSpec(v, width, height, canEvict, id);
      LineOk(v', cw, ch, bound) && v'.y == v.y && v'.maxHeight == v.maxHeight &&
      (v.height == v.maxHeight ==> v'.height == v.height)
  {
    ReserveKeepsLineSorted(v, width, height, canEvict, id);
    ReserveOutcome(v, width, height, canEvict, id);
    var (w, v') := ReserveSpec(v, width, height, canEvict, id);
    if v.minHeight <= height <= v.maxHeight {
      var (x, v1) := if canEvict then EvictWidthSpec(v, width) else (ReserveWidthSpec(v, width), v);
      EvictWidthRemovesUnusedRun(v, width);
      forall s | s in v1.reserved ensures s in v.reserved {
        if canEvict && x.Some? {
          var st := EvictScan(v.reserved, v.cacheWidth, width, 0, Scan(0, 0, 0, 0));
          assert v1.reserved == v.reserved[..st.start] + v.reserved[st.end..];
        }
      }
      if x.Some? {
        var spot := Spot(id, RectPx(x.value, v.y, width, height), UsedDuringThisFrame);
        InsertHolds(v1.reserved, spot);
        forall s | s in v'.reserved ensures SpotOk(s, v'.y, v'.height, bound) {
          assert s in v1.reserved || s == spot;
        }
      }
    }
  }

  lemma InsertHolds(r: seq<Spot>, spot: Spot)
    ensures forall s :: s in Insert(r, spot) ==> s in r || s == spot
  {
    match SearchX(r, spot.texcoords.x, 0)
    case Found(_) =>
    case NotFound(i) =>
      assert r == r[..i] + r[i..];
  }

  lemma {:induction false} ExistingKeepsWellFormed(c: CacheV, a: nat, width: int, height: int, canEvict: bool, id: nat)
    requires WellFormed(c) && id < c.nextId
    ensures WellFormed(c.(lines := ExistingSpec(c.lines, a, width, height, canEvict, id).1))
    decreases |c.lines| - a
  {
    if a < |c.lines| {
      var (w, v') := ReserveSpec(c.lines[a], width, height, canEvict, id);
      ReserveKeepsLineOk(c.lines[a], width, height, canEvict, id, c.width, c.height, c.nextId);
      var c' := c.(lines := c.lines[a := v']);
      assert WellFormed(c');
      ExistingKeepsWellFormed(c', a + 1, width, height, canEvict, id);
    }
  }

  /** A new line keeps the lines stacked and each line in bounds. */
  lemma CreateLineKeepsWellFormed(c: CacheV, height: int)
    requires WellFormed(c)
    ensures CreateLineSpec(c, height).Some? ==> WellFormed(CreateLineSpec(c, height).value)
  {
    CreateLinePlacement(c, height);
    match CreateLineSpec(c, height)
    case None =>
    case Some(c1) =>
      var n := |c1.lines| - 1;
      assert LineOk(c1.lines[n], c.width, c.height, c.nextId);
      if n > 0 {
        assert LineOk(c.lines[n - 1], c.width, c.height, c.nextId);
        assert LineOk(c1.lines[n - 1], c.width, c.height, c.nextId);
      }
      forall k | 0 <= k < n ensures c1.lines[k] == c.lines[k] || k == n - 1 {
        if k < n - 1 { assert c1.lines[..n - 1][k] == c.lines[..n - 1][k]; }
      }
  }

  /** Replacing the last line by one at the same y, in bounds, keeps the
      cache well formed. */
  lemma ReplaceLastKeepsWellFormed(c: CacheV, v: LineV)
    requires WellFormed(c) && |c.lines| > 0
    requires v.y == c.lines[|c.lines| - 1].y && LineOk(v, c.width, c.height, c.nextId)
    ensures WellFormed(c.(lines := c.lines[|c.lines| - 1 := v]))
  {
    var n := |c.lines| - 1;
    var ls := c.lines[n := v];
    forall k | 0 <= k < |ls| - 1
      ensures ls[k + 1].y == ls[k].y + ls[k].height + GAP && ls[k].height == ls[k].maxHeight
    {
      assert ls[k] == c.lines[k];
    }
  }

  lemma NewLineKeepsWellFormed(c: CacheV, width: int, height: int, id: nat)
    requires WellFormed(c) && id < c.nextId
    ensures WellFormed(NewLineSpec(c, width, height, id).1)
  {
    CreateLineKeepsWellFormed(c, height);
    match CreateLineSpec(c, height)
    case None =>
    case Some(c1) =>
      var n := |c1.lines| - 1;
      assert LineOk(c1.lines[n], c1.width, c1.height, c1.nextId);
      ReserveKeepsLineOk(c1.lines[n], width, height, false, id, c1.width, c1.height, c1.nextId);
      var (w, v') := ReserveSpec(c1.lines[n], width, height, false, id);
      ReplaceLastKeepsWellFormed(c1, v');
  }

  lemma FromCacheKeepsWellFormed(c: CacheV, key: CacheIdentifier)
    requires WellFormed(c)
    ensures WellFormed(FromCacheSpec(c, key).1)
  {
    if key in c.cache {
      match Locate(c.lines, c.cache[key], 0)
      case None =>
      case Some((a, i)) =>
        var v := c.lines[a];
        var spot := v.reserved[i].(status := UsedDuringThisFrame);
        var v' := v.(reserved := v.reserved[i := spot]);
        assert LineOk(v, c.width, c.height, c.nextId);
        assert v.reserved[i] in v.reserved;
        forall s | s in v'.reserved ensures s in v.reserved || s == spot { }
        forall p, q | 0 <= p < q < |v'.reserved|
          ensures v'.reserved[p].texcoords.x < v'.reserved[q].texcoords.x
        {
          assert v'.reserved[p].texcoords == v.reserved[p].texcoords;
          assert v'.reserved[q].texcoords == v.reserved[q].texcoords;
        }
    }
  }

  lemma EvictAttemptKeepsWellFormed(c: CacheV, key: CacheIdentifier, width: int, height: int, id: nat)
    requires WellFormed(c) && id < c.nextId
    ensures WellFormed(EvictAttempt(c, key, width, height, id).1)
  {
    ExistingKeepsWellFormed(c, 0, width, height, true, id);
  }

  lemma NewLineAttemptKeepsWellFormed(c: CacheV, key: CacheIdentifier, width: int, height: int, id: nat)
    requires WellFormed(c) && id < c.nextId
    ensures WellFormed(NewLineAttempt(c, key, width, height, id).1)
  {
    NewLineKeepsWellFormed(c, width, height, id);
    var (s, c1) := NewLineSpec(c, width, height, id);
    assert c1.nextId == c.nextId;
    if s.None? {
      EvictAttemptKeepsWellFormed(c1, key, width, height, id);
    }
  }

  lemma MissKeepsWellFormed(c: CacheV, key: CacheIdentifier, width: int, height: int)
    requires WellFormed(c)
    ensures WellFormed(MissSpec(c, key, width, height).1)
  {
    var id := c.nextId;
    var c1 := c.(nextId := id + 1);
    BumpKeepsWellFormed(c);
    ExistingKeepsWellFormed(c1, 0, width, height, false, id);
    var e := ExistingSpec(c1.lines, 0, width, height, false, id);
    var c2 := c1.(lines := e.1);
    if e.0.None? {
      NewLineAttemptKeepsWellFormed(c2, key, width, height, id);
    } else {
      RecordKeepsWellFormed(c2, key, e.0.value);
    }
  }

  /** Remembering a key changes no line. */
  lemma RecordKeepsWellFormed(c: CacheV, key: CacheIdentifier, spot: Spot)
    requires WellFormed(c)
    ensures WellFormed(Record(c, key, spot))
  {
    assert Record(c, key, spot).lines == c.lines;
  }

  /** Handing out a new identity keeps the cache well formed. */
  lemma BumpKeepsWellFormed(c: CacheV)
    requires WellFormed(c)
    ensures WellFormed(c.(nextId := c.nextId + 1))
  {
    var c1 := c.(nextId := c.nextId + 1);
    forall k | 0 <= k < |c1.lines| ensures LineOk(c1.lines[k], c1.width, c1.height, c1.nextId) {
      assert LineOk(c.lines[k], c.width, c.height, c.nextId);
    }
  }

  /** `reserve_uvs` keeps the cache well formed: lines stacked GAP apart from
      MARGIN down and inside the texture, spots sorted within their line and
      no higher than it, and every spot identity already handed out. */
  lemma ReserveUvsKeepsWellFormed(c: CacheV, key: CacheIdentifier, width: int, height: int)
    requires WellFormed(c)
    ensures WellFormed(ReserveUvsSpec(c, key, width, height).1)
  {
    FromCacheKeepsWellFormed(c, key);
    var (hit, c1) := FromCacheSpec(c, key);
    if hit.None? {
      MissKeepsWellFormed(c1, key, width, height);
    }
  }

  // ---------------------------------------------------------------------
  // What reserve_uvs returns

  /** Every spot identity in these lines is below `bound`. */
  ghost predicate IdsBelow(ls: seq<LineV>, bound: nat)
  {
    forall b, i :: 0 <= b < |ls| && 0 <= i < |ls[b].reserved| ==> ls[b].reserved[i].id < bound
  }

  /** The spot a reservation for a `width` by `height` glyph creates in a
      line at `y`. */
  ghost predicate FreshSpot(s: Spot, id: nat, y: int, width: int, height: int)
  {
    s.id == id && s.texcoords.y == y && s.texcoords.width == width &&
    s.texcoords.height == height && s.status == UsedDuringThisFrame
  }

  /** `key` is in the map and its weak reference upgrades to a spot at `tc`
      that is marked used during this frame. */
  ghost predicate Live(c: CacheV, key: CacheIdentifier, tc: RectPx)
  {
    key in c.cache && Locate(c.lines, c.cache[key], 0).Some? &&
    var (a, i) := Locate(c.lines, c.cache[key], 0).value;
    c.lines[a].reserved[i].texcoords == tc && c.lines[a].reserved[i].status == UsedDuringThisFrame
  }

  lemma {:induction false} LocateFinds(ls: seq<LineV>, w: nat, a: nat, j: nat, i: nat)
    requires a <= j < |ls| && IndexOfId(ls[j].reserved, w) == Some(i)
    requires forall b, k :: a <= b < j && 0 <= k < |ls[b].reserved| ==> ls[b].reserved[k].id != w
    ensures Locate(ls, w, a) == Some((j, i))
    decreases j - a
  {
    if a < j {
      assert IndexOfId(ls[a].reserved, w).None?;
      LocateFinds(ls, w, a + 1, j, i);
    }
  }

  lemma {:induction false} IndexOfIdSeesOnlyIds(r: seq<Spot>, r': seq<Spot>, w: nat)
    requires |r| == |r'| && forall k :: 0 <= k < |r| ==> r[k].id == r'[k].id
    ensures IndexOfId(r, w) == IndexOfId(r', w)
  {
    if |r| > 0 {
      IndexOfIdSeesOnlyIds(r[1..], r'[1..], w);
    }
  }

  /** Reserving with an identity above every identity of the line: either the
      identity now upgrades, to a new spot of the requested size at the
      line's y, or the line still holds only older identities. */
  lemma ReserveFresh(v: LineV, width: int, height: int, canEvict: bool, id: nat)
    requires forall i :: 0 <= i < |v.reserved| ==> v.reserved[i].id < id
    ensures var (w, v') := ReserveSpec(v, width, height, canEvict, id);
      var idx := IndexOfId(v'.reserved, id);
      v'.y == v.y &&
      (idx.None? ==> forall i :: 0 <= i < |v'.reserved| ==> v'.reserved[i].id < id) &&
      (idx.Some? ==> w == Some(id) && FreshSpot(v'.reserved[idx.value], id, v.y, width, height))
  {
    ReserveOutcome(v, width, height, canEvict, id);
    var (w, v') := ReserveSpec(v, width, height, canEvict, id);
    if v.minHeight <= height <= v.maxHeight {
      var (x, v1) := if canEvict then EvictWidthSpec(v, width) else (ReserveWidthSpec(v, width), v);
      EvictWidthRemovesUnusedRun(v, width);
      forall s | s in v1.reserved ensures s in v.reserved {
        if canEvict && x.Some? {
          var st := EvictScan(v.reserved, v.cacheWidth, width, 0, Scan(0, 0, 0, 0));
          assert v1.reserved == v.reserved[..st.start] + v.reserved[st.end..];
        }
      }
      if x.Some? {
        var spot := Spot(id, RectPx(x.value, v.y, width, height), UsedDuringThisFrame);
        InsertHolds(v1.reserved, spot);
        forall i | 0 <= i < |v'.reserved| ensures v'.reserved[i].id < id || v'.reserved[i] == spot {
          assert v'.reserved[i] in v'.reserved;
        }
      } else {
        forall i | 0 <= i < |v'.reserved| ensures v'.reserved[i].id < id {
          assert v'.reserved[i] in v1.reserved;
        }
      }
    }
  }

  /** `reserve_uvs_from_existing` with a fresh identity: when it answers, the
      identity upgrades (first found in the line it went into) to the spot it
      answered with, a new spot of the requested size at that line's y. */
  lemma {:induction false} ExistingFresh(ls: seq<LineV>, a: nat, width: int, height: int, canEvict: bool, id: nat)
    requires IdsBelow(ls, id)
    ensures var (s, ls') := ExistingSpec(ls, a, width, height, canEvict, id);
      |ls'| == |ls| &&
      (s.None? ==> IdsBelow(ls', id)) &&
      (s.Some? ==> Locate(ls', id, 0).Some? &&
                   var (j, i) := Locate(ls', id, 0).value;
                   ls'[j].reserved[i] == s.value && FreshSpot(s.value, id, ls'[j].y, width, height))
    decreases |ls| - a
  {
    if a < |ls| {
      var (w, v') := ReserveSpec(ls[a], width, height, canEvict, id);
      ReserveFresh(ls[a], width, height, canEvict, id);
      var ls1 := ls[a := v'];
      var up := if w.Some? then IndexOfId(v'.reserved, w.value) else None;
      if up.Some? {
        LocateFinds(ls1, id, 0, a, up.value);
      } else {
        assert IdsBelow(ls1, id);
        ExistingFresh(ls1, a + 1, width, height, canEvict, id);
      }
    }
  }

  /** `reserve_uvs_from_new_line` with a fresh identity, likewise. */
  lemma NewLineFresh(c: CacheV, width: int, height: int, id: nat)
    requires IdsBelow(c.lines, id)
    ensures var (s, c') := NewLineSpec(c, width, height, id);
      c'.(lines := c.lines) == c &&
      (s.None? ==> IdsBelow(c'.lines, id)) &&
      (s.Some? ==> Locate(c'.lines, id, 0).Some? &&
                   var (j, i) := Locate(c'.lines, id, 0).value;
                   c'.lines[j].reserved[i] == s.value && FreshSpot(s.value, id, c'.lines[j].y, width, height))
  {
    match CreateLineSpec(c, height)
    case None =>
    case Some(c1) =>
      var n := |c1.lines| - 1;
      CreateLineKeepsIds(c, height, id);
      var (w, v') := ReserveSpec(c1.lines[n], width, height, false, id);
      ReserveFresh(c1.lines[n], width, height, false, id);
      var c2 := c1.(lines := c1.lines[n := v']);
      var up := if w.Some? then IndexOfId(v'.reserved, w.value) else None;
      if up.Some? {
        LocateFinds(c2.lines, id, 0, n, up.value);
      } else {
        assert IdsBelow(c2.lines, id);
      }
  }

  /** A new line holds no spot, and the others keep theirs. */
  lemma CreateLineKeepsIds(c: CacheV, height: int, id: nat)
    requires IdsBelow(c.lines, id) && CreateLineSpec(c, height).Some?
    ensures IdsBelow(CreateLineSpec(c, height).value.lines, id)
  {
    var c1 := CreateLineSpec(c, height).value;
    assert forall b :: 0 <= b < |c.lines| ==> c1.lines[b].reserved == c.lines[b].reserved;
  }

  /** The outcome of a miss, step by step from the last: eviction ... */
  lemma EvictAttemptOutcome(c: CacheV, key: CacheIdentifier, width: int, height: int, id: nat)
    requires IdsBelow(c.lines, id)
    ensures var (res, c') := EvictAttempt(c, key, width, height, id);
      c'.(lines := c.lines, cache := c.cache) == c &&
      (res.Ok? ==> res.value.1 && Live(c', key, res.value.0) && c'.cache == c.cache[key := id] &&
                   res.value.0.width == width && res.value.0.height == height) &&
      (res.Err? ==> c'.cache == c.cache)
  {
    ExistingFresh(c.lines, 0, width, height, true, id);
  }

  /** ... a new line ... */
  lemma NewLineAttemptOutcome(c: CacheV, key: CacheIdentifier, width: int, height: int, id: nat)
    requires IdsBelow(c.lines, id)
    ensures var (res, c') := NewLineAttempt(c, key, width, height, id);
      c'.(lines := c.lines, cache := c.cache) == c &&
      (res.Ok? ==> res.value.1 && Live(c', key, res.value.0) && c'.cache == c.cache[key := id] &&
                   res.value.0.width == width && res.value.0.height == height) &&
      (res.Err? ==> c'.cache == c.cache)
  {
    NewLineFresh(c, width, height, id);
    var (s, c1) := NewLineSpec(c, width, height, id);
    if s.None? {
      EvictAttemptOutcome(c1, key, width, height, id);
    }
  }

  /** ... the gaps of the existing lines, with the next identity. */
  lemma MissOutcome(c: CacheV, key: CacheIdentifier, width: int, height: int)
    requires IdsBelow(c.lines, c.nextId)
    ensures var (res, c') := MissSpec(c, key, width, height);
      c'.width == c.width && c'.height == c.height && c'.nextId == c.nextId + 1 &&
      (res.Ok? ==> res.value.1 && Live(c', key, res.value.0) && c'.cache == c.cache[key := c.nextId] &&
                   res.value.0.width == width && res.value.0.height == height) &&
      (res.Err? ==> c'.cache == c.cache)
  {
    var id := c.nextId;
    var c1 := c.(nextId := id + 1);
    ExistingFresh(c1.lines, 0, width, height, false, id);
    var (s, ls) := ExistingSpec(c1.lines, 0, width, height, false, id);
    if s.None? {
      NewLineAttemptOutcome(c1.(lines := ls), key, width, height, id);
    }
  }

  /** A hit marks the spot used and keeps the entry live. */
  lemma FromCacheOutcome(c: CacheV, key: CacheIdentifier)
    ensures var (hit, c') := FromCacheSpec(c, key);
      c'.(lines := c.lines, cache := c.cache) == c &&
      (hit.Some? ==> c'.cache == c.cache && Live(c', key, hit.value.texcoords)) &&
      (hit.None? ==> c'.lines == c.lines && c'.cache == c.cache - {key})
  {
    if key in c.cache {
      var w := c.cache[key];
      match Locate(c.lines, w, 0)
      case None =>
      case Some((a, i)) =>
        var (hit, c') := FromCacheSpec(c, key);
        IndexOfIdSeesOnlyIds(c.lines[a].reserved, c'.lines[a].reserved, w);
        LocateFinds(c'.lines, w, 0, a, i);
    }
  }

  /** `reserve_uvs` returns texture coordinates that the key's entry now
      leads to, in a spot marked used during this frame. A hit (`false`)
      changes neither the map nor the identities; a miss (`true`) hands out
      the next identity, and the new spot has the requested size. When the
      cache is full the key is not in the map. */
  lemma ReserveUvsOutcome(c: CacheV, key: CacheIdentifier, width: int, height: int)
    requires WellFormed(c)
    ensures var (res, c') := ReserveUvsSpec(c, key, width, height);
      c'.width == c.width && c'.height == c.height &&
      (res.Ok? ==> Live(c', key, res.value.0)) &&
      (res.Ok? && !res.value.1 ==> c'.cache == c.cache && c'.nextId == c.nextId) &&
      (res.Ok? && res.value.1 ==> c'.cache == c.cache[key := c.nextId] && c'.nextId == c.nextId + 1 &&
                                  res.value.0.width == width && res.value.0.height == height) &&
      (res.Err? ==> key !in c'.cache && c'.nextId == c.nextId + 1)
  {
    FromCacheOutcome(c, key);
    var (hit, c1) := FromCacheSpec(c, key);
    if hit.None? {
      assert IdsBelow(c1.lines, c1.nextId) by {
        forall b, i | 0 <= b < |c1.lines| && 0 <= i < |c1.lines[b].reserved|
          ensures c1.lines[b].reserved[i].id < c1.nextId
        {
          assert LineOk(c.lines[b], c.width, c.height, c.nextId);
          assert c.lines[b].reserved[i] in c.lines[b].reserved;
        }
      }
      MissOutcome(c1, key, width, height);
      assert c1.cache[key := c.nextId] == c.cache[key := c.nextId];
    }
  }

  // ---------------------------------------------------------------------
  // Packing: the spots of the atlas never overlap

  lemma PackedSeesOnlyTexcoords(r: seq<Spot>, r': seq<Spot>, cacheWidth: int)
    requires Packed(r, cacheWidth)
    requires |r| == |r'| && forall k :: 0 <= k < |r| ==> r[k].texcoords == r'[k].texcoords
    ensures Packed(r', cacheWidth)
  {
    forall i | 0 <= i < |r'| ensures PackedAt(r', cacheWidth, i) {
      assert PackedAt(r, cacheWidth, i);
      assert PrevRight(r', i) == PrevRight(r, i);
      assert NextLeft(r', i + 1, cacheWidth) == NextLeft(r, i + 1, cacheWidth);
    }
  }

  lemma FromCacheKeepsTidy(c: CacheV, key: CacheIdentifier)
    requires Tidy(c)
    ensures Tidy(FromCacheSpec(c, key).1)
  {
    if key in c.cache {
      match Locate(c.lines, c.cache[key], 0)
      case None =>
      case Some((a, i)) =>
        var c' := FromCacheSpec(c, key).1;
        PackedSeesOnlyTexcoords(c.lines[a].reserved, c'.lines[a].reserved, c.width);
    }
  }

  lemma {:induction false} ExistingKeepsTidy(c: CacheV, a: nat, width: int, height: int, canEvict: bool, id: nat)
    requires Tidy(c) && 1 <= width <= c.width - 2 * MARGIN
    ensures Tidy(c.(lines := ExistingSpec(c.lines, a, width, height, canEvict, id).1))
    decreases |c.lines| - a
  {
    if a < |c.lines| {
      var (w, v') := ReserveSpec(c.lines[a], width, height, canEvict, id);
      ReserveKeepsLinePacked(c.lines[a], width, height, canEvict, id);
      ReserveOutcome(c.lines[a], width, height, canEvict, id);
      var c' := c.(lines := c.lines[a := v']);
      assert Tidy(c');
      ExistingKeepsTidy(c', a + 1, width, height, canEvict, id);
    }
  }

  lemma NewLineKeepsTidy(c: CacheV, width: int, height: int, id: nat)
    requires Tidy(c) && 1 <= width <= c.width - 2 * MARGIN && 0 <= height
    ensures Tidy(NewLineSpec(c, width, height, id).1)
  {
    match CreateLineSpec(c, height)
    case None =>
    case Some(c1) =>
      var n := |c1.lines| - 1;
      assert forall b :: 0 <= b < n ==> c1.lines[b].(maxHeight := c.lines[b].maxHeight) == c.lines[b];
      assert Tidy(c1);
      ReserveKeepsLinePacked(c1.lines[n], width, height, false, id);
      ReserveOutcome(c1.lines[n], width, height, false, id);
  }

  /** Tidiness is about the lines and the texture width alone. */
  lemma TidyOfLines(c: CacheV, d: CacheV)
    requires Tidy(c) && d.lines == c.lines && d.width == c.width
    ensures Tidy(d)
  {
  }

  lemma MissKeepsTidy(c: CacheV, key: CacheIdentifier, width: int, height: int)
    requires Tidy(c) && 1 <= width <= c.width - 2 * MARGIN && 0 <= height
    ensures Tidy(MissSpec(c, key, width, height).1)
  {
    var id := c.nextId;
    var c1 := c.(nextId := id + 1);
    TidyOfLines(c, c1);
    ExistingKeepsTidy(c1, 0, width, height, false, id);
    var (s, ls) := ExistingSpec(c1.lines, 0, width, height, false, id);
    var c2 := c1.(lines := ls);
    if s.Some? {
      TidyOfLines(c2, Record(c2, key, s.value));
    } else {
      assert MissSpec(c, key, width, height) == NewLineAttempt(c2, key, width, height, id);
      NewLineKeepsTidy(c2, width, height, id);
      var (s2, c3) := NewLineSpec(c2, width, height, id);
      if s2.Some? {
        TidyOfLines(c3, Record(c3, key, s2.value));
      } else {
        assert NewLineAttempt(c2, key, width, height, id) == EvictAttempt(c3, key, width, height, id);
        ExistingKeepsTidy(c3, 0, width, height, true, id);
        var (s3, ls3) := ExistingSpec(c3.lines, 0, width, height, true, id);
        if s3.Some? {
          TidyOfLines(c3.(lines := ls3), Record(c3.(lines := ls3), key, s3.value));
        }
      }
    }
  }

  /** For a glyph at least one pixel wide that fits the texture between its
      margins, `reserve_uvs` keeps every line packed. (For a wider glyph
      `reserve_width` on an empty line still answers MARGIN, so packing is
      not kept.) */
  lemma ReserveUvsKeepsTidy(c: CacheV, key: CacheIdentifier, width: int, height: int)
    requires Tidy(c) && 1 <= width <= c.width - 2 * MARGIN && 0 <= height
    ensures Tidy(ReserveUvsSpec(c, key, width, height).1)
  {
    FromCacheKeepsTidy(c, key);
    var (hit, c1) := FromCacheSpec(c, key);
    if hit.None? {
      MissKeepsTidy(c1, key, width, height);
    }
  }

  /** Two texture rectangles at least GAP pixels apart, side by side or one
      above the other. */
  predicate Apart(p: RectPx, q: RectPx)
  {
    p.x + p.width + GAP <= q.x || q.x + q.width + GAP <= p.x ||
    p.y + p.height + GAP <= q.y || q.y + q.height + GAP <= p.y
  }

  lemma {:induction false} StackedBelow(ls: seq<LineV>, a: nat, b: nat)
    requires Stacked(ls) && a < b < |ls|
    requires forall k :: 0 <= k < |ls| ==> 0 <= ls[k].height
    ensures ls[a].y + ls[a].height + GAP <= ls[b].y
    decreases b - a
  {
    if a + 1 < b {
      StackedBelow(ls, a + 1, b);
    }
  }

  /** In a well-formed, tidy cache every spot lies inside the texture's
      margins ... */
  lemma SpotInside(c: CacheV, a: nat, i: nat)
    requires WellFormed(c) && Tidy(c)
    requires a < |c.lines| && i < |c.lines[a].reserved|
    ensures var t := c.lines[a].reserved[i].texcoords;
      MARGIN <= t.x && t.x + t.width <= c.width - MARGIN &&
      MARGIN <= t.y && t.y + t.height <= c.height - MARGIN
  {
    var r := c.lines[a].reserved;
    assert LineOk(c.lines[a], c.width, c.height, c.nextId);
    assert r[i] in r;
    assert PackedAt(r, c.width, i);
    PackedBoundsMonotone(r, c.width, 0, i);
    PackedBoundsMonotone(r, c.width, i + 1, |r|);
    if 0 < a {
      StackedBelow(c.lines, 0, a);
    }
  }

  /** ... and any two different spots are at least GAP apart: the atlas
      never hands out overlapping texture areas. */
  lemma SpotsApart(c: CacheV, a: nat, i: nat, b: nat, j: nat)
    requires WellFormed(c) && Tidy(c)
    requires a < |c.lines| && i < |c.lines[a].reserved|
    requires b < |c.lines| && j < |c.lines[b].reserved|
    requires (a, i) != (b, j)
    ensures Apart(c.lines[a].reserved[i].texcoords, c.lines[b].reserved[j].texcoords)
  {
    var p := c.lines[a].reserved[i];
    var q := c.lines[b].reserved[j];
    assert LineOk(c.lines[a], c.width, c.height, c.nextId) && p in c.lines[a].reserved;
    assert LineOk(c.lines[b], c.width, c.height, c.nextId) && q in c.lines[b].reserved;
    if a == b {
      if i < j {
        PackedIncreasing(c.lines[a].reserved, c.width, i, j);
      } else {
        PackedIncreasing(c.lines[a].reserved, c.width, j, i);
      }
    } else if a < b {
      StackedBelow(c.lines, a, b);
    } else {
      StackedBelow(c.lines, b, a);
    }
  }

  /** `expire_one_step` keeps the cache well formed and tidy, keeps every
      spot where it is, and leaves no spot marked used during this frame. */
  lemma ExpireKeepsShape(c: CacheV)
    ensures var c' := ExpireSpec(c);
      |c'.lines| == |c.lines| && c'.cache == c.cache && c'.nextId == c.nextId &&
      (WellFormed(c) ==> WellFormed(c')) && (Tidy(c) ==> Tidy(c')) &&
      forall a :: 0 <= a < |c.lines| ==>
        c'.lines[a].(reserved := c.lines[a].reserved) == c.lines[a] &&
        |c'.lines[a].reserved| == |c.lines[a].reserved| &&
        forall i :: 0 <= i < |c.lines[a].reserved| ==>
          c'.lines[a].reserved[i].texcoords == c.lines[a].reserved[i].texcoords &&
          c'.lines[a].reserved[i].id == c.lines[a].reserved[i].id &&
          c'.lines[a].reserved[i].status != UsedDuringThisFrame
  {
    var c' := ExpireSpec(c);
    forall a | 0 <= a < |c.lines|
      ensures c'.lines[a] == ExpireLine(c.lines[a])
      ensures Sorted(c.lines[a].reserved) ==> Sorted(c'.lines[a].reserved)
      ensures Packed(c.lines[a].reserved, c.width) ==> Packed(c'.lines[a].reserved, c.width)
      ensures forall s :: s in c'.lines[a].reserved ==> exists t :: t in c.lines[a].reserved && t.texcoords == s.texcoords && t.id == s.id
    {
      ExpireAgesEverySpot(c.lines[a].reserved, c.width);
      forall s | s in c'.lines[a].reserved
        ensures exists t :: t in c.lines[a].reserved && t.texcoords == s.texcoords && t.id == s.id
      {
        var i :| 0 <= i < |c'.lines[a].reserved| && c'.lines[a].reserved[i] == s;
        assert c.lines[a].reserved[i] in c.lines[a].reserved;
      }
    }
    if WellFormed(c) {
      forall a | 0 <= a < |c.lines| ensures LineOk(c'.lines[a], c.width, c.height, c.nextId) {
        assert LineOk(c.lines[a], c.width, c.height, c.nextId);
      }
    }
  }

  // ---------------------------------------------------------------------
  // The cache object

  class GlyphCache {
    const width: int
    const height: int
    var lines: seq<GlyphLine>
    var cache: map<CacheIdentifier, nat>
    var nextId: nat

    ghost function Lines(): seq<LineV>
      reads this, lines
    {
      seq(|lines|, k requires 0 <= k < |lines| reads this, lines => lines[k].V())
    }

    ghost function V(): CacheV
      reads this, lines
    {
      CacheV(width, height, Lines(), cache, nextId)
    }

    /** Each line is its own object. */
    ghost predicate Distinct()
      reads this
    {
      forall i, j :: 0 <= i < j < |lines| ==> lines[i] != lines[j]
    }

    ghost predicate Valid()
      reads this, lines
    {
      Distinct() && WellFormed(V())
    }

    /** The cache part of `create_cache_and_draw_call`: no lines, no entries. */
    constructor (width: int, height: int)
      ensures Valid() && V() == CacheV(width, height, [], map[], 0)
    {
      this.width := width;
      this.height := height;
      lines := [];
      cache := map[];
      nextId := 0;
    }

    /** `get_uvs_from_cache`. */
    method GetUvsFromCache(key: CacheIdentifier) returns (spot: Option<Spot>)
      requires Distinct()
      modifies this, lines
      ensures lines == old(lines) && Distinct()
      ensures (spot, V()) == FromCacheSpec(old(V()), key)
    {
      if key in cache {
        var w := cache[key];
        var a := 0;
        while a < |lines|
          invariant 0 <= a <= |lines| && lines == old(lines) && cache == old(cache) && nextId == old(nextId)
          invariant Lines() == old(Lines())
          invariant Locate(Lines(), w, a) == Locate(Lines(), w, 0)
        {
          var line := lines[a];
          var idx := IndexOfId(line.reserved, w);
          if idx.Some? {
            ghost var before := Lines();
            line.MarkUsed(idx.value);
            assert Lines() == before[a := line.V()];
            return Some(line.reserved[idx.value]);
          }
          a := a + 1;
        }
        assert Locate(Lines(), w, 0).None?;
        assert Lines() == old(V()).lines;
        cache := cache - {key};
        assert V() == old(V()).(cache := old(V()).cache - {key});
        return None;
      }
      assert V() == old(V());
      return None;
    }

    /** `reserve_uvs_from_existing`: asks each line in turn to reserve. */
    method ReserveUvsFromExisting(width: int, height: int, canEvict: bool, id: nat) returns (spot: Option<Spot>)
      requires Distinct()
      modifies lines
      ensures (spot, Lines()) == ExistingSpec(old(Lines()), 0, width, height, canEvict, id)
    {
      var a := 0;
      while a < |lines|
        invariant 0 <= a <= |lines|
        invariant ExistingSpec(Lines(), a, width, height, canEvict, id)
               == ExistingSpec(old(Lines()), 0, width, height, canEvict, id)
      {
        var line := lines[a];
        ghost var before := Lines();
        var weak := line.Reserve(width, height, canEvict, id);
        assert Lines() == before[a := line.V()];
        if weak.Some? {
          var idx := IndexOfId(line.reserved, weak.value);
          if idx.Some? {
            return Some(line.reserved[idx.value]);
          }
        }
        a := a + 1;
      }
      return None;
    }

    /** The sum at the start of `create_line`: the margin plus every
        line's height and gap. */
    method TotalHeight() returns (totalHeight: int)
      ensures totalHeight == MARGIN + SumHeights(Lines())
    {
      totalHeight := MARGIN;
      var k := 0;
      while k < |lines|
        invariant 0 <= k <= |lines|
        invariant totalHeight == MARGIN + SumHeights(Lines()[..k])
      {
        assert Lines()[..k + 1][..k] == Lines()[..k];
        totalHeight := totalHeight + lines[k].height + GAP;
        k := k + 1;
      }
      assert Lines()[..k] == Lines();
    }

    /** `create_line`: sums the heights of the lines, and pushes a new line
        if one `height` high still fits. */
    method CreateLine(height: int) returns (created: bool)
      requires Distinct()
      modifies this, lines
      ensures Distinct() && |lines| >= |old(lines)| && lines[..|old(lines)|] == old(lines)
      ensures created ==> |lines| == |old(lines)| + 1 && fresh(lines[|lines| - 1])
      ensures !created ==> lines == old(lines)
      ensures CreateLineSpec(old(V()), height) == if created then Some(V()) else None
      ensures !created ==> V() == old(V())
    {
      var totalHeight := TotalHeight();
      if totalHeight + height <= this.height - MARGIN {
        FreezeLast();
        PushLine(totalHeight, height);
        return true;
      }
      return false;
    }

    /** Freezes the last line's maximum height to its height. */
    method FreezeLast()
      requires Distinct()
      modifies if |lines| > 0 then {lines[|lines| - 1]} else {}
      ensures var ls := old(Lines()); var n := |ls|;
        Lines() == if n == 0 then ls else ls[n - 1 := ls[n - 1].(maxHeight := ls[n - 1].height)]
    {
      ghost var ls := Lines();
      var n := |lines|;
      if n > 0 {
        var last := lines[n - 1];
        last.maxHeight := last.height;
        assert Lines() == ls[n - 1 := ls[n - 1].(maxHeight := ls[n - 1].height)];
      }
    }

    /** Pushes a new line at `lineY`, `lineHeight` high. */
    method PushLine(lineY: int, lineHeight: int)
      requires Distinct()
      modifies this`lines
      ensures Distinct() && |lines| == |old(lines)| + 1 && lines[..|old(lines)|] == old(lines)
      ensures fresh(lines[|lines| - 1])
      ensures Lines() == old(Lines()) + [NewLineV(lineY, lineHeight, width, height)]
    {
      ghost var ls := Lines();
      var line := new GlyphLine(lineY, lineHeight, width, height);
      lines := lines + [line];
      assert Lines() == ls + [line.V()];
    }

    /** `reserve_uvs_from_new_line`. */
    method ReserveUvsFromNewLine(width: int, height: int, id: nat) returns (spot: Option<Spot>)
      requires Distinct()
      modifies this, lines
      ensures Distinct() && |lines| >= |old(lines)| && lines[..|old(lines)|] == old(lines)
      ensures |lines| > |old(lines)| ==> |lines| == |old(lines)| + 1 && fresh(lines[|lines| - 1])
      ensures (spot, V()) == NewLineSpec(old(V()), width, height, id)
    {
      var created := CreateLine(height);
      if !created {
        return None;
      }
      var line := lines[|lines| - 1];
      ghost var before := Lines();
      var weak := line.Reserve(width, height, false, id);
      assert Lines() == before[|lines| - 1 := line.V()];
      if weak.Some? {
        var idx := IndexOfId(line.reserved, weak.value);
        if idx.Some? {
          return Some(line.reserved[idx.value]);
        }
      }
      return None;
    }

    /** `reserve_uvs`: cache, then existing lines, then a new line, then
        eviction. */
    method ReserveUvs(key: CacheIdentifier, width: int, height: int)
      returns (res: Result<(RectPx, bool), GlyphNotRenderedError>)
      requires Valid()
      modifies this, lines
      ensures Valid()
      ensures (res, V()) == ReserveUvsSpec(old(V()), key, width, height)
    {
      ReserveUvsKeepsWellFormed(V(), key, width, height);
      var hit := GetUvsFromCache(key);
      if hit.Some? {
        return Ok((hit.value.texcoords, false));
      }
      res := ReserveMiss(key, width, height);
    }

    /** `self.cache.insert(cache_id, spot)`: remembers the spot's id. */
    method Remember(key: CacheIdentifier, spot: Spot)
      modifies this`cache
      ensures V() == Record(old(V()), key, spot)
    {
      cache := cache[key := spot.id];
    }

    /** The id of the next new spot, counted up. */
    method TakeId() returns (id: nat)
      modifies this`nextId
      ensures id == old(nextId) && V() == old(V()).(nextId := id + 1)
    {
      id := nextId;
      nextId := nextId + 1;
    }

    /** The part of `reserve_uvs` after a cache miss. */
    method ReserveMiss(key: CacheIdentifier, width: int, height: int)
      returns (res: Result<(RectPx, bool), GlyphNotRenderedError>)
      requires Distinct()
      modifies this, lines
      ensures Distinct()
      ensures (res, V()) == MissSpec(old(V()), key, width, height)
    {
      var id := TakeId();
      ghost var c := V();
      var uvs := ReserveUvsFromExisting(width, height, false, id);
      assert V() == c.(lines := ExistingSpec(c.lines, 0, width, height, false, id).1);
      if uvs.Some? {
        Remember(key, uvs.value);
        return Ok((uvs.value.texcoords, true));
      }
      res := ReserveAfterGaps(key, width, height, id);
    }

    /** The part of `reserve_uvs` after no gap of an existing line fitted. */
    method ReserveAfterGaps(key: CacheIdentifier, width: int, height: int, id: nat)
      returns (res: Result<(RectPx, bool), GlyphNotRenderedError>)
      requires Distinct()
      modifies this, lines
      ensures Distinct()
      ensures (res, V()) == NewLineAttempt(old(V()), key, width, height, id)
    {
      var uvs := ReserveUvsFromNewLine(width, height, id);
      if uvs.Some? {
        Remember(key, uvs.value);
        return Ok((uvs.value.texcoords, true));
      }
      ghost var c := V();
      uvs := ReserveUvsFromExisting(width, height, true, id);
      assert V() == c.(lines := ExistingSpec(c.lines, 0, width, height, true, id).1);
      if uvs.Some? {
        Remember(key, uvs.value);
        return Ok((uvs.value.texcoords, true));
      }
      return Err(GlyphCacheFull);
    }

    /** `GlyphCache::expire_one_step`: ages every spot of every line. */
    method ExpireOneStep()
      requires Distinct()
      modifies lines
      ensures V() == ExpireSpec(old(V()))
    {
      var a := 0;
      while a < |lines|
        invariant 0 <= a <= |lines|
        invariant forall k :: 0 <= k < a ==> lines[k].V() == ExpireLine(old(lines[k].V()))
        invariant forall k :: a <= k < |lines| ==> lines[k].V() == old(lines[k].V())
      {
        lines[a].ExpireOneStep();
        a := a + 1;
      }
      assert Lines() == ExpireSpec(old(V())).lines;
    }
  }
}
