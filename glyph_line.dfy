/**
 * One horizontal line (shelf) of the glyph atlas of `src/text/glyph_cache.rs`.
 *
 * A line keeps its reserved spots sorted by x. New spots go into the first
 * gap wide enough (`reserve_width`), or into a run of spots that were not
 * used while composing the current frame, which are evicted to make room
 * (`evict_width`). Spots are kept `GAP` apart from each other and `MARGIN`
 * away from the texture's edges.
 *
 * A spot is shared in the source through `Rc`/`Weak`; here it carries a
 * unique `id` and a weak reference is that id: it upgrades while a spot with
 * the id is still reserved.
 */
module GlyphLines {
  import opened Wrappers
  import opened Types
  import opened RustInt

  /** How far the glyphs are from the texture's edges. */
  const MARGIN: int := 1
  /** How far the glyphs are from each other. */
  const GAP: int := 1

  datatype ExpiryStatus = UsedDuringThisFrame | UsedDuringLastFrame | Expired

  /** One frame passes: this frame's spots become last frame's, last frame's
      expire, and expired spots stay expired. */
  function OneStepExpired(s: ExpiryStatus): (r: ExpiryStatus)
    ensures r != UsedDuringThisFrame
    ensures (r == UsedDuringLastFrame) == (s == UsedDuringThisFrame)
  {
    match s
    case UsedDuringThisFrame => UsedDuringLastFrame
    case UsedDuringLastFrame => Expired
    case Expired => s
  }

  datatype Spot = Spot(id: nat, texcoords: RectPx, status: ExpiryStatus)

  /** The value of a `GlyphLine`: everything but the texture handle. */
  datatype LineV = LineV(y: int, height: int, minHeight: int, maxHeight: int,
                         cacheWidth: int, reserved: seq<Spot>)

  /** The first x a spot placed after the first `i` spots may take: GAP right
      of spot `i-1`, or MARGIN from the texture's left edge. */
  function PrevRight(r: seq<Spot>, i: nat): int
    requires i <= |r|
  {
    if i > 0 then r[i - 1].texcoords.x + r[i - 1].texcoords.width + GAP else MARGIN
  }

  /** The last x a spot placed before spot `i` may reach: GAP left of spot
      `i`, or MARGIN from the texture's right edge. */
  function NextLeft(r: seq<Spot>, i: nat, cacheWidth: int): int
    requires i <= |r|
  {
    if i < |r| then r[i].texcoords.x - GAP else cacheWidth - MARGIN
  }

  /** A `width`-wide spot fits between spot `i-1` and spot `i`. */
  predicate Fits(r: seq<Spot>, cacheWidth: int, width: int, i: nat)
    requires i <= |r|
  {
    NextLeft(r, i, cacheWidth) >= PrevRight(r, i) + width
  }

  /** Spots are in strictly increasing x order (what the binary search needs). */
  ghost predicate Sorted(r: seq<Spot>)
  {
    forall i, j :: 0 <= i < j < |r| ==> r[i].texcoords.x < r[j].texcoords.x
  }

  /** Spot `i` has a non-negative width and keeps GAP from its neighbours,
      or MARGIN from the texture's edges. */
  predicate PackedAt(r: seq<Spot>, cacheWidth: int, i: nat)
    requires i < |r|
  {
    0 <= r[i].texcoords.width && PrevRight(r, i) <= r[i].texcoords.x &&
    r[i].texcoords.x + r[i].texcoords.width <= NextLeft(r, i + 1, cacheWidth)
  }

  /** Every spot of the line is packed: the line's spots do not overlap and
      stay inside the texture horizontally. */
  ghost predicate Packed(r: seq<Spot>, cacheWidth: int)
  {
    forall i :: 0 <= i < |r| ==> PackedAt(r, cacheWidth, i)
  }

  lemma {:induction false} PackedIncreasing(r: seq<Spot>, cacheWidth: int, i: nat, j: nat)
    requires Packed(r, cacheWidth) && i < j < |r|
    ensures r[i].texcoords.x + r[i].texcoords.width + GAP <= r[j].texcoords.x
    decreases j - i
  {
    assert PackedAt(r, cacheWidth, i);
    if j > i + 1 {
      assert PackedAt(r, cacheWidth, i + 1);
      PackedIncreasing(r, cacheWidth, i + 1, j);
    }
  }

  lemma PackedIsSorted(r: seq<Spot>, cacheWidth: int)
    requires Packed(r, cacheWidth)
    ensures Sorted(r)
  {
    forall i, j | 0 <= i < j < |r| ensures r[i].texcoords.x < r[j].texcoords.x {
      assert PackedAt(r, cacheWidth, i);
      PackedIncreasing(r, cacheWidth, i, j);
    }
  }

  /** On a packed line the room boundaries only move right. */
  lemma PackedBoundsMonotone(r: seq<Spot>, cacheWidth: int, a: nat, b: nat)
    requires Packed(r, cacheWidth) && a <= b <= |r|
    ensures PrevRight(r, a) <= PrevRight(r, b)
    ensures NextLeft(r, a, cacheWidth) <= NextLeft(r, b, cacheWidth)
  {
    if a < b {
      assert PackedAt(r, cacheWidth, b - 1);
      if 0 < a {
        PackedIncreasing(r, cacheWidth, a - 1, b - 1);
      } else {
        assert PackedAt(r, cacheWidth, 0);
        if 0 < b - 1 { PackedIncreasing(r, cacheWidth, 0, b - 1); }
      }
      assert PackedAt(r, cacheWidth, a);
      if b < |r| {
        PackedIncreasing(r, cacheWidth, a, b);
      } else if a < b - 1 {
        PackedIncreasing(r, cacheWidth, a, b - 1);
      }
    }
  }

  // ---------------------------------------------------------------------
  // reserve_width

  /** The search of `reserve_width` from gap `i` on. */
  function GapFrom(r: seq<Spot>, cacheWidth: int, width: int, i: nat): Option<int>
    requires i <= |r| + 1
    decreases |r| + 1 - i
  {
    if i > |r| then None
    else if Fits(r, cacheWidth, width, i) then Some(PrevRight(r, i))
    else GapFrom(r, cacheWidth, width, i + 1)
  }

  /** `GlyphLine::reserve_width`: an empty line answers MARGIN; otherwise the
      left end of the first gap that fits. */
  function ReserveWidthSpec(v: LineV, width: int): Option<int>
  {
    if |v.reserved| == 0 then Some(MARGIN) else GapFrom(v.reserved, v.cacheWidth, width, 0)
  }

  lemma {:induction false} GapFromFirstFit(r: seq<Spot>, cacheWidth: int, width: int, i: nat)
    requires i <= |r| + 1
    ensures GapFrom(r, cacheWidth, width, i).None? <==>
              forall k :: i <= k <= |r| ==> !Fits(r, cacheWidth, width, k)
    ensures forall j ::
              (i <= j <= |r| && Fits(r, cacheWidth, width, j) &&
               (forall k :: i <= k < j ==> !Fits(r, cacheWidth, width, k))) ==>
              GapFrom(r, cacheWidth, width, i) == Some(PrevRight(r, j))
    decreases |r| + 1 - i
  {
    if i <= |r| {
      GapFromFirstFit(r, cacheWidth, width, i + 1);
    }
  }

  /** `reserve_width` answers MARGIN on an empty line; otherwise it answers
      the left end of the FIRST gap where a `width`-wide spot fits, and None
      exactly when no gap fits. */
  lemma ReserveWidthIsFirstFit(v: LineV, width: int)
    ensures |v.reserved| == 0 ==> ReserveWidthSpec(v, width) == Some(MARGIN)
    ensures ReserveWidthSpec(v, width).None? <==>
              |v.reserved| > 0 && forall k :: 0 <= k <= |v.reserved| ==> !Fits(v.reserved, v.cacheWidth, width, k)
    ensures forall j ::
              (0 <= j <= |v.reserved| && 0 < |v.reserved| && Fits(v.reserved, v.cacheWidth, width, j) &&
               (forall k :: 0 <= k < j ==> !Fits(v.reserved, v.cacheWidth, width, k))) ==>
              ReserveWidthSpec(v, width) == Some(PrevRight(v.reserved, j))
  {
    GapFromFirstFit(v.reserved, v.cacheWidth, width, 0);
  }

  // ---------------------------------------------------------------------
  // evict_width

  /** The loop state of `evict_width`: `left`, `right` and `collected_range`. */
  datatype Scan = Scan(left: int, right: int, start: nat, end: nat)

  /** The state after looking at spot `i`. */
  function EvictStep(r: seq<Spot>, cacheWidth: int, i: nat, st: Scan): Scan
    requires i < |r|
  {
    if r[i].status == UsedDuringThisFrame then st.(start := 0, end := 0)
    else
      var st1 := if st.end <= st.start then Scan(PrevRight(r, i), st.right, i, i) else st;
      st1.(right := NextLeft(r, i + 1, cacheWidth), end := st1.end + 1)
  }

  /** The loop of `evict_width` from spot `i` on: it stops after the first
      spot at which `right - left >= width`. The collected range never holds
      a spot used during this frame. */
  function EvictScan(r: seq<Spot>, cacheWidth: int, width: int, i: nat, st: Scan): (res: Scan)
    requires i <= |r| && st.start <= st.end <= i && (st.start < st.end ==> st.end == i)
    requires forall k :: st.start <= k < st.end ==> r[k].status != UsedDuringThisFrame
    ensures res.start <= res.end <= |r|
    ensures forall k :: res.start <= k < res.end ==> r[k].status != UsedDuringThisFrame
    decreases |r| - i
  {
    if i == |r| then st
    else
      var st' := EvictStep(r, cacheWidth, i, st);
      if st'.right - st'.left >= width then st' else EvictScan(r, cacheWidth, width, i + 1, st')
  }

  /** One spot of the loop of `evict_width`: the scan stops with the new
      state, or goes on from the next spot with it. */
  lemma EvictScanNext(r: seq<Spot>, cacheWidth: int, width: int, i: nat, st: Scan, st': Scan)
    requires i < |r| && st.start <= st.end <= i && (st.start < st.end ==> st.end == i)
    requires forall k :: st.start <= k < st.end ==> r[k].status != UsedDuringThisFrame
    requires st' == EvictStep(r, cacheWidth, i, st)
    ensures st'.start <= st'.end <= i + 1 && (st'.start < st'.end ==> st'.end == i + 1)
    ensures forall k :: st'.start <= k < st'.end ==> r[k].status != UsedDuringThisFrame
    ensures st'.right - st'.left >= width ==> EvictScan(r, cacheWidth, width, i, st) == st'
    ensures st'.right - st'.left < width ==>
      EvictScan(r, cacheWidth, width, i, st) == EvictScan(r, cacheWidth, width, i + 1, st')
  {
  }

  /** `GlyphLine::evict_width`: if the scan found room, the collected run of
      spots is spliced out and its left end returned; otherwise nothing changes. */
  function EvictWidthSpec(v: LineV, width: int): (Option<int>, LineV)
  {
    var r := v.reserved;
    var st := EvictScan(r, v.cacheWidth, width, 0, Scan(0, 0, 0, 0));
    if st.right - st.left >= width then (Some(st.left), v.(reserved := r[..st.start] + r[st.end..]))
    else (None, v)
  }

  /** `evict_width` answers None and leaves the line alone, or removes exactly
      one contiguous run of spots, none of them used during this frame. */
  lemma EvictWidthRemovesUnusedRun(v: LineV, width: int)
    ensures var (x, v') := EvictWidthSpec(v, width);
      v'.(reserved := v.reserved) == v &&
      (x.None? ==> v' == v) &&
      (x.Some? ==> (exists s, e :: 0 <= s <= e <= |v.reserved| &&
                     v'.reserved == v.reserved[..s] + v.reserved[e..] &&
                     forall k :: s <= k < e ==> v.reserved[k].status != UsedDuringThisFrame))
  {
    var st := EvictScan(v.reserved, v.cacheWidth, width, 0, Scan(0, 0, 0, 0));
    if st.right - st.left >= width {
      assert 0 <= st.start <= st.end <= |v.reserved|;
    }
  }

  /** What the scan knows at the head of its loop when it has not stopped:
      the room found so far is too small, and a non-empty run's room is
      exactly from GAP right of the spot before the run to GAP left of the
      spot after it. */
  ghost predicate ScanFacts(r: seq<Spot>, cacheWidth: int, width: int, i: nat, st: Scan)
    requires i <= |r| && st.start <= st.end <= i
  {
    st.right - st.left < width &&
    (st.start < st.end ==> st.left == PrevRight(r, st.start) && st.right == NextLeft(r, st.end, cacheWidth))
  }

  lemma {:induction false} EvictScanRoom(r: seq<Spot>, cacheWidth: int, width: int, i: nat, st: Scan)
    requires i <= |r| && st.start <= st.end <= i && (st.start < st.end ==> st.end == i)
    requires forall k :: st.start <= k < st.end ==> r[k].status != UsedDuringThisFrame
    requires ScanFacts(r, cacheWidth, width, i, st)
    ensures var res := EvictScan(r, cacheWidth, width, i, st);
      res.right - res.left >= width ==>
        res.start < res.end && res.left == PrevRight(r, res.start) &&
        res.right == NextLeft(r, res.end, cacheWidth)
    decreases |r| - i
  {
    if i < |r| {
      var st' := EvictStep(r, cacheWidth, i, st);
      if st'.right - st'.left < width {
        EvictScanRoom(r, cacheWidth, width, i + 1, st');
      } else if r[i].status != UsedDuringThisFrame {
        assert st'.end == i + 1 && st'.right == NextLeft(r, i + 1, cacheWidth);
      }
    }
  }

  /** For a width of at least 1, `evict_width` answers Some(left) only after
      removing a non-empty run whose neighbours leave at least `width` of room
      starting at `left`. */
  lemma EvictWidthMakesRoom(v: LineV, width: int)
    requires 1 <= width
    ensures var (x, v') := EvictWidthSpec(v, width);
      x.Some? ==> (exists s, e :: 0 <= s < e <= |v.reserved| &&
                     v'.reserved == v.reserved[..s] + v.reserved[e..] &&
                     x.value == PrevRight(v.reserved, s) &&
                     x.value + width <= NextLeft(v.reserved, e, v.cacheWidth))
  {
    EvictScanRoom(v.reserved, v.cacheWidth, width, 0, Scan(0, 0, 0, 0));
  }

  // ---------------------------------------------------------------------
  // reserve

  datatype Search = Found(at: nat) | NotFound(insertAt: nat)

  /** `binary_search_by` on the x coordinate. On a sorted line, the spot with
      that x or the position that keeps the line sorted. */
  function SearchX(r: seq<Spot>, x: int, i: nat): (res: Search)
    requires i <= |r|
    requires forall k :: 0 <= k < i ==> r[k].texcoords.x < x
    ensures res.Found? ==> i <= res.at < |r| && r[res.at].texcoords.x == x
    ensures res.NotFound? ==>
      (i <= res.insertAt <= |r| &&
       (forall k :: 0 <= k < res.insertAt ==> r[k].texcoords.x < x) &&
       (Sorted(r) ==> forall k :: res.insertAt <= k < |r| ==> r[k].texcoords.x > x))
    decreases |r| - i
  {
    if i == |r| then NotFound(i)
    else if r[i].texcoords.x == x then Found(i)
    else if r[i].texcoords.x > x then NotFound(i)
    else SearchX(r, x, i + 1)
  }

  /** Where `reserve` puts the new spot, if anywhere. */
  function Insert(r: seq<Spot>, spot: Spot): seq<Spot>
  {
    match SearchX(r, spot.texcoords.x, 0)
    case Found(_) => r
    case NotFound(i) => r[..i] + [spot] + r[i..]
  }

  /** `GlyphLine::reserve`: the weak reference (the new spot's id) and the line
      afterwards. */
  function ReserveSpec(v: LineV, width: int, height: int, canEvict: bool, id: nat): (Option<nat>, LineV)
  {
    if height < v.minHeight || height > v.maxHeight then (None, v)
    else
      var (x, v1) := if canEvict then EvictWidthSpec(v, width) else (ReserveWidthSpec(v, width), v);
      if x.None? then (None, v1)
      else
        var spot := Spot(id, RectPx(x.value, v.y, width, height), UsedDuringThisFrame);
        (Some(id), v1.(reserved := Insert(v1.reserved, spot), height := Max(v1.height, height)))
  }

  /** The first index of a spot with this id: what upgrading a weak reference
      into this line finds. */
  function IndexOfId(r: seq<Spot>, id: nat): (res: Option<nat>)
    ensures res.Some? ==> res.value < |r| && r[res.value].id == id &&
                          forall k :: 0 <= k < res.value ==> r[k].id != id
    ensures res.None? ==> forall k :: 0 <= k < |r| ==> r[k].id != id
  {
    if |r| == 0 then None
    else if r[0].id == id then Some(0)
    else match IndexOfId(r[1..], id)
      case None => None
      case Some(k) => Some(k + 1)
  }

  /** On spots whose first `j` lie left of `x` and whose rest lie right of
      it, the search answers "insert at `j`". */
  lemma {:induction false} SearchFindsGap(r: seq<Spot>, x: int, i: nat, j: nat)
    requires i <= j <= |r|
    requires forall k :: 0 <= k < j ==> r[k].texcoords.x < x
    requires j < |r| ==> r[j].texcoords.x > x
    ensures SearchX(r, x, i) == NotFound(j)
    decreases j - i
  {
    if i < j { SearchFindsGap(r, x, i + 1, j); }
  }

  lemma InsertKeepsSorted(r: seq<Spot>, spot: Spot)
    requires Sorted(r)
    ensures Sorted(Insert(r, spot))
  {
    match SearchX(r, spot.texcoords.x, 0)
    case Found(_) =>
    case NotFound(i) =>
      var n := r[..i] + [spot] + r[i..];
      forall a, b | 0 <= a < b < |n| ensures n[a].texcoords.x < n[b].texcoords.x {
        if b < i { assert n[a] == r[a] && n[b] == r[b]; }
        else if b == i { assert n[a] == r[a]; }
        else if a < i { assert n[a] == r[a] && n[b] == r[b - 1]; }
        else if a == i { assert n[b] == r[b - 1]; }
        else { assert n[a] == r[a - 1] && n[b] == r[b - 1]; }
      }
  }

  lemma RemoveRunKeepsSorted(r: seq<Spot>, s: nat, e: nat)
    requires Sorted(r) && s <= e <= |r|
    ensures Sorted(r[..s] + r[e..])
  {
    var m := r[..s] + r[e..];
    forall a, b | 0 <= a < b < |m| ensures m[a].texcoords.x < m[b].texcoords.x {
      var a' := if a < s then a else a + (e - s);
      var b' := if b < s then b else b + (e - s);
      assert m[a] == r[a'] && m[b] == r[b'];
    }
  }

  /** `reserve` keeps the line sorted by x, whatever the inputs: eviction
      removes a run, and the new spot goes to its binary-search position or
      is dropped when a spot already starts at its x. */
  lemma ReserveKeepsLineSorted(v: LineV, width: int, height: int, canEvict: bool, id: nat)
    requires Sorted(v.reserved)
    ensures Sorted(ReserveSpec(v, width, height, canEvict, id).1.reserved)
  {
    if v.minHeight <= height <= v.maxHeight {
      var (x, v1) := if canEvict then EvictWidthSpec(v, width) else (ReserveWidthSpec(v, width), v);
      if canEvict && x.Some? {
        var st := EvictScan(v.reserved, v.cacheWidth, width, 0, Scan(0, 0, 0, 0));
        RemoveRunKeepsSorted(v.reserved, st.start, st.end);
      }
      if x.Some? {
        InsertKeepsSorted(v1.reserved, Spot(id, RectPx(x.value, v.y, width, height), UsedDuringThisFrame));
      }
    }
  }

  /** `reserve` with the height outside [min_height, max_height] returns None
      and leaves the line unchanged. Otherwise, once a place was found, it
      returns the new spot's weak reference and the line grows to the spot's
      height; without eviction, the new spot is (x, line y, width, height,
      used during this frame) at the x `reserve_width` found. Only the spots
      and the height ever change. */
  lemma ReserveOutcome(v: LineV, width: int, height: int, canEvict: bool, id: nat)
    ensures var (w, v') := ReserveSpec(v, width, height, canEvict, id);
      (height < v.minHeight || height > v.maxHeight ==> w.None? && v' == v) &&
      (w.Some? ==> w.value == id && v'.height == Max(v.height, height)) &&
      v'.(reserved := v.reserved, height := v.height) == v &&
      (w.None? ==> v'.height == v.height) &&
      (!canEvict && w.None? ==> v' == v) &&
      (!canEvict && w.Some? ==>
         v'.reserved == Insert(v.reserved, Spot(id, RectPx(ReserveWidthSpec(v, width).value, v.y, width, height),
                                                UsedDuringThisFrame)))
  {
  }

  // ---------------------------------------------------------------------
  // Packing

  /** A spot spliced in at index `j`, between its neighbours' rooms, keeps
      a packed line packed. */
  lemma {:induction false} SpliceKeepsPacked(r: seq<Spot>, cacheWidth: int, j: nat, spot: Spot)
    requires Packed(r, cacheWidth) && j <= |r|
    requires 0 <= spot.texcoords.width
    requires PrevRight(r, j) <= spot.texcoords.x
    requires spot.texcoords.x + spot.texcoords.width <= NextLeft(r, j, cacheWidth)
    ensures Packed(r[..j] + [spot] + r[j..], cacheWidth)
  {
    var n := r[..j] + [spot] + r[j..];
    forall k | 0 <= k < |n| ensures PackedAt(n, cacheWidth, k) {
      if k < j {
        assert n[k] == r[k] && PackedAt(r, cacheWidth, k);
        if k > 0 { assert n[k - 1] == r[k - 1]; }
        if k + 1 < j { assert n[k + 1] == r[k + 1]; }
      } else if k == j {
        if k > 0 { assert n[k - 1] == r[k - 1]; }
        if k + 1 < |n| { assert n[k + 1] == r[j]; }
      } else {
        assert n[k] == r[k - 1] && PackedAt(r, cacheWidth, k - 1);
        if k - 1 > j { assert n[k - 1] == r[k - 2]; }
        if k + 1 < |n| { assert n[k + 1] == r[k]; }
      }
    }
  }

  /** Inserting a spot at the left end of a gap where it fits keeps a packed
      line packed, and puts it exactly in that gap. */
  lemma {:induction false} InsertIntoGapKeepsPacked(r: seq<Spot>, cacheWidth: int, j: nat, spot: Spot)
    requires Packed(r, cacheWidth) && j <= |r|
    requires 0 <= spot.texcoords.width
    requires spot.texcoords.x == PrevRight(r, j)
    requires spot.texcoords.x + spot.texcoords.width <= NextLeft(r, j, cacheWidth)
    ensures Insert(r, spot) == r[..j] + [spot] + r[j..]
    ensures Packed(Insert(r, spot), cacheWidth)
  {
    var x := spot.texcoords.x;
    forall k | 0 <= k < j ensures r[k].texcoords.x < x {
      assert PackedAt(r, cacheWidth, k);
      if k < j - 1 { PackedIncreasing(r, cacheWidth, k, j - 1); }
      assert PackedAt(r, cacheWidth, j - 1);
    }
    SearchFindsGap(r, x, 0, j);
    SpliceKeepsPacked(r, cacheWidth, j, spot);
  }

  /** Removing the run `r[s..e]` keeps a packed line packed, and leaves as
      room between the run's neighbours exactly what was there. */
  lemma {:induction false} RemoveRunKeepsPacked(r: seq<Spot>, cacheWidth: int, s: nat, e: nat)
    requires Packed(r, cacheWidth) && s <= e <= |r|
    ensures Packed(r[..s] + r[e..], cacheWidth)
    ensures PrevRight(r[..s] + r[e..], s) == PrevRight(r, s)
    ensures NextLeft(r[..s] + r[e..], s, cacheWidth) == NextLeft(r, e, cacheWidth)
  {
    var m := r[..s] + r[e..];
    if s > 0 { assert m[s - 1] == r[s - 1]; }
    if s < |m| { assert m[s] == r[e]; }
    forall k | 0 <= k < |m| ensures PackedAt(m, cacheWidth, k) {
      if k < s {
        assert m[k] == r[k] && PackedAt(r, cacheWidth, k);
        if k > 0 { assert m[k - 1] == r[k - 1]; }
        if k + 1 < s { assert m[k + 1] == r[k + 1]; }
        else { PackedBoundsMonotone(r, cacheWidth, k + 1, e); }
      } else {
        assert m[k] == r[k + (e - s)] && PackedAt(r, cacheWidth, k + (e - s));
        if k > s { assert m[k - 1] == r[k - 1 + (e - s)]; }
        else { PackedBoundsMonotone(r, cacheWidth, s, e); }
        if k + 1 < |m| { assert m[k + 1] == r[k + 1 + (e - s)]; }
      }
    }
  }

  /** The gap `reserve_width` picked, when it picked one. */
  function FirstFitIndex(r: seq<Spot>, cacheWidth: int, width: int, i: nat): (j: nat)
    requires i <= |r| + 1
    requires GapFrom(r, cacheWidth, width, i).Some?
    ensures i <= j <= |r| && Fits(r, cacheWidth, width, j)
    ensures GapFrom(r, cacheWidth, width, i) == Some(PrevRight(r, j))
    decreases |r| + 1 - i
  {
    if Fits(r, cacheWidth, width, i) then i else FirstFitIndex(r, cacheWidth, width, i + 1)
  }

  /** A packed line stays packed through `reserve` of a width from 1 to
      `cacheWidth - 2*MARGIN`. (On an empty line, `reserve_width` answers
      MARGIN without comparing the width with the line, so a wider glyph
      would reach past the texture's right edge.) */
  lemma ReserveKeepsLinePacked(v: LineV, width: int, height: int, canEvict: bool, id: nat)
    requires Packed(v.reserved, v.cacheWidth)
    requires 1 <= width <= v.cacheWidth - 2 * MARGIN
    ensures Packed(ReserveSpec(v, width, height, canEvict, id).1.reserved, v.cacheWidth)
  {
    var r := v.reserved;
    if v.minHeight <= height <= v.maxHeight {
      if canEvict {
        var (x, v1) := EvictWidthSpec(v, width);
        EvictScanRoom(r, v.cacheWidth, width, 0, Scan(0, 0, 0, 0));
        if x.Some? {
          var st := EvictScan(r, v.cacheWidth, width, 0, Scan(0, 0, 0, 0));
          RemoveRunKeepsPacked(r, v.cacheWidth, st.start, st.end);
          InsertIntoGapKeepsPacked(v1.reserved, v.cacheWidth, st.start,
            Spot(id, RectPx(x.value, v.y, width, height), UsedDuringThisFrame));
        }
      } else {
        var x := ReserveWidthSpec(v, width);
        if x.Some? {
          var spot := Spot(id, RectPx(x.value, v.y, width, height), UsedDuringThisFrame);
          var j := if |r| == 0 then 0 else FirstFitIndex(r, v.cacheWidth, width, 0);
          InsertIntoGapKeepsPacked(r, v.cacheWidth, j, spot);
        }
      }
    }
  }
  /** The overrun the bound above leaves out: on an empty line a glyph
      wider than `cacheWidth - 2*MARGIN` is still placed at MARGIN, and its
      spot reaches past MARGIN from the texture's right edge. */
  lemma WideGlyphOverruns(v: LineV, width: int, height: int, id: nat)
    requires v.reserved == [] && v.minHeight <= height <= v.maxHeight
    requires width > v.cacheWidth - 2 * MARGIN
    ensures var (w, v1) := ReserveSpec(v, width, height, false, id);
      w == Some(id) &&
      v1.reserved == [Spot(id, RectPx(MARGIN, v.y, width, height), UsedDuringThisFrame)] &&
      !Packed(v1.reserved, v.cacheWidth)
  {
    var spot := Spot(id, RectPx(MARGIN, v.y, width, height), UsedDuringThisFrame);
    assert Insert([], spot) == [spot];
    assert !PackedAt([spot], v.cacheWidth, 0);
  }


  // ---------------------------------------------------------------------
  // expire_one_step

  function ExpireAll(r: seq<Spot>): seq<Spot>
  {
    seq(|r|, i requires 0 <= i < |r| => r[i].(status := OneStepExpired(r[i].status)))
  }

  /** `GlyphLine::expire_one_step` ages every spot by one step and changes
      nothing else; afterwards no spot counts as used during this frame. */
  lemma ExpireAgesEverySpot(r: seq<Spot>, cacheWidth: int)
    ensures |ExpireAll(r)| == |r|
    ensures forall i :: 0 <= i < |r| ==>
      ExpireAll(r)[i].id == r[i].id && ExpireAll(r)[i].texcoords == r[i].texcoords &&
      ExpireAll(r)[i].status == OneStepExpired(r[i].status) &&
      ExpireAll(r)[i].status != UsedDuringThisFrame
    ensures Sorted(r) ==> Sorted(ExpireAll(r))
    ensures Packed(r, cacheWidth) ==> Packed(ExpireAll(r), cacheWidth)
  {
    var n := ExpireAll(r);
    if Packed(r, cacheWidth) {
      forall i | 0 <= i < |n| ensures PackedAt(n, cacheWidth, i) {
        assert PackedAt(r, cacheWidth, i);
        assert PrevRight(n, i) == PrevRight(r, i);
        assert NextLeft(n, i + 1, cacheWidth) == NextLeft(r, i + 1, cacheWidth);
      }
    }
  }

  // ---------------------------------------------------------------------
  // The line object

  class GlyphLine {
    const y: int
    const minHeight: int
    const cacheWidth: int
    var height: int
    var maxHeight: int
    var reserved: seq<Spot>

    ghost function V(): LineV
      reads this
    {
      LineV(y, height, minHeight, maxHeight, cacheWidth, reserved)
    }

    /** `GlyphLine::new`: an empty line; the smallest glyph it takes is half
        its height, the largest twice its height or whatever room is left
        below it in the texture. */
    constructor (lineY: int, lineHeight: int, cacheWidth: int, cacheHeight: int)
      ensures y == lineY && height == lineHeight && this.cacheWidth == cacheWidth
      ensures minHeight == Div(lineHeight, 2)
      ensures maxHeight == Min(lineHeight * 2, cacheHeight - MARGIN - lineY)
      ensures reserved == []
    {
      y := lineY;
      height := lineHeight;
      minHeight := Div(lineHeight, 2);
      maxHeight := Min(lineHeight * 2, cacheHeight - MARGIN - lineY);
      this.cacheWidth := cacheWidth;
      reserved := [];
    }

    /** The loop of `evict_width`, over the spots with `left`, `right` and
        the collected range. */
    method EvictLoop(r: seq<Spot>, width: int) returns (left: int, right: int, start: nat, end: nat)
      ensures Scan(left, right, start, end) == EvictScan(r, cacheWidth, width, 0, Scan(0, 0, 0, 0))
    {
      left, right := 0, 0;
      start, end := 0, 0;
      ghost var target := EvictScan(r, cacheWidth, width, 0, Scan(0, 0, 0, 0));
      var i := 0;
      while i < |r|
        invariant 0 <= i <= |r|
        invariant start <= end <= i && (start < end ==> end == i)
        invariant forall k :: start <= k < end ==> r[k].status != UsedDuringThisFrame
        invariant EvictScan(r, cacheWidth, width, i, Scan(left, right, start, end)) == target
      {
        ghost var before := Scan(left, right, start, end);
        if r[i].status == UsedDuringThisFrame {
          start, end := 0, 0;
        } else {
          if end <= start {
            left := if i > 0 then r[i - 1].texcoords.x + r[i - 1].texcoords.width + GAP else MARGIN;
            start, end := i, i;
          }
          right := if i + 1 < |r| then r[i + 1].texcoords.x - GAP else cacheWidth - MARGIN;
          end := end + 1;
        }
        assert Scan(left, right, start, end) == EvictStep(r, cacheWidth, i, before);
        EvictScanNext(r, cacheWidth, width, i, before, Scan(left, right, start, end));
        if right - left >= width {
          break;
        }
        i := i + 1;
      }
    }

    /** `evict_width`: the collected run of spots is spliced out when the
        loop found room, and its left end returned. */
    method EvictWidth(width: int) returns (x: Option<int>)
      modifies this`reserved
      ensures (x, V()) == EvictWidthSpec(old(V()), width)
    {
      var r := reserved;
      var left, right, start, end := EvictLoop(r, width);
      if right - left >= width {
        reserved := r[..start] + r[end..];
        x := Some(left);
      } else {
        x := None;
      }
    }

    /** `reserve_width`: compares each spot's left side with the previous
        spot's right side, including the two texture edges. */
    method ReserveWidth(width: int) returns (x: Option<int>)
      ensures x == ReserveWidthSpec(V(), width)
    {
      var r := reserved;
      if |r| == 0 {
        return Some(MARGIN);
      }
      var i := 0;
      while i <= |r|
        invariant 0 <= i <= |r| + 1
        invariant GapFrom(r, cacheWidth, width, i) == GapFrom(r, cacheWidth, width, 0)
      {
        var previousSpotRight := if i > 0 then r[i - 1].texcoords.x + r[i - 1].texcoords.width + GAP else MARGIN;
        var currentSpotLeft := if i < |r| then r[i].texcoords.x - GAP else cacheWidth - MARGIN;
        if currentSpotLeft >= previousSpotRight + width {
          return Some(previousSpotRight);
        }
        i := i + 1;
      }
      return None;
    }

    /** `reserve`: checks the height, finds an x (by eviction or in a gap),
        inserts the new spot at its binary-search position and grows the line. */
    method Reserve(width: int, height: int, canEvict: bool, id: nat) returns (weak: Option<nat>)
      modifies this`reserved, this`height
      ensures (weak, V()) == ReserveSpec(old(V()), width, height, canEvict, id)
    {
      if height < minHeight || height > maxHeight {
        return None;
      }
      var x: Option<int>;
      if canEvict {
        x := EvictWidth(width);
      } else {
        x := ReserveWidth(width);
      }
      if x.None? {
        return None;
      }
      var spot := Spot(id, RectPx(x.value, y, width, height), UsedDuringThisFrame);
      match SearchX(reserved, x.value, 0) {
        case NotFound(i) =>
          reserved := reserved[..i] + [spot] + reserved[i..];
        case Found(_) =>
      }
      this.height := Max(this.height, height);
      weak := Some(id);
    }

    /** `expire_one_step`: ages every spot of the line in place. */
    method ExpireOneStep()
      modifies this`reserved
      ensures V() == old(V()).(reserved := ExpireAll(old(reserved)))
    {
      var i := 0;
      while i < |reserved|
        invariant 0 <= i <= |reserved| == |old(reserved)|
        invariant reserved[..i] == ExpireAll(old(reserved))[..i]
        invariant reserved[i..] == old(reserved)[i..]
      {
        reserved := reserved[i := reserved[i].(status := OneStepExpired(reserved[i].status))];
        i := i + 1;
      }
    }

    /** The status `Cell` of spot `i` is set to used-during-this-frame. */
    method MarkUsed(i: nat)
      requires i < |reserved|
      modifies this`reserved
      ensures V() == old(V()).(reserved := old(reserved)[i := old(reserved)[i].(status := UsedDuringThisFrame)])
    {
      reserved := reserved[i := reserved[i].(status := UsedDuringThisFrame)];
    }
  }
}
