/**
 * The element layout of `src/ui/layout.rs`. A `Layout` places an element by
 * a rectangle relative to anchors that scale with the window; the layout
 * controller hands out one layout per element and moves the stored one a
 * full element (plus padding) onwards in its direction each time.
 *
 * The window dimensions, a global in the source, are parameters. The
 * controller, a global behind a mutex, is an object.
 */
module UiLayout {
  import TextLayout

  /** A rectangle given by the position of each of its sides. */
  datatype Rect = Rect(left: real, top: real, right: real, bottom: real)

  function Width(r: Rect): (w: real)
    ensures r.left + w == r.right
  {
    r.right - r.left
  }

  function Height(r: Rect): (h: real)
    ensures r.top + h == r.bottom
  {
    r.bottom - r.top
  }

  datatype Direction = Left | Up | Right | Down

  datatype Layout = Layout(relative: Rect, anchors: Rect, alignment: TextLayout.Alignment, padding: real)

  /** `Layout::default` and `Layout::new`: a 100 by 16 rectangle at (8, 8),
      no anchoring, centred text, padding 8. */
  function NewLayout(): (l: Layout)
    ensures l.relative == Rect(8.0, 8.0, 108.0, 24.0) && l.anchors == Rect(0.0, 0.0, 0.0, 0.0)
    ensures l.alignment == TextLayout.Center && l.padding == 8.0
  {
    Layout(Rect(8.0, 8.0, 108.0, 24.0), Rect(0.0, 0.0, 0.0, 0.0), TextLayout.Center, 8.0)
  }

  /** The builder `relative`: only the relative rectangle is replaced. */
  function WithRelative(l: Layout, left: real, top: real, right: real, bottom: real): (r: Layout)
    ensures r.relative == Rect(left, top, right, bottom)
    ensures r.anchors == l.anchors && r.alignment == l.alignment && r.padding == l.padding
  {
    l.(relative := Rect(left, top, right, bottom))
  }

  /** The builder `anchors`: only the anchors are replaced. */
  function WithAnchors(l: Layout, left: real, top: real, right: real, bottom: real): (r: Layout)
    ensures r.anchors == Rect(left, top, right, bottom)
    ensures r.relative == l.relative && r.alignment == l.alignment && r.padding == l.padding
  {
    l.(anchors := Rect(left, top, right, bottom))
  }

  /** The builder `padding`: only the padding is replaced. */
  function WithPadding(l: Layout, d: real): (r: Layout)
    ensures r.padding == d
    ensures r.relative == l.relative && r.anchors == l.anchors && r.alignment == l.alignment
  {
    l.(padding := d)
  }

  /** The builder `alignment`: only the alignment is replaced. */
  function WithAlignment(l: Layout, alignment: TextLayout.Alignment): (r: Layout)
    ensures r.alignment == alignment
    ensures r.relative == l.relative && r.anchors == l.anchors && r.padding == l.padding
  {
    l.(alignment := alignment)
  }

  /** `r` with each side moved by its delta. */
  function MoveRect(r: Rect, left: real, top: real, right: real, bottom: real): Rect
  {
    Rect(r.left + left, r.top + top, r.right + right, r.bottom + bottom)
  }

  /** `move_relative`, on the layout the caller holds: each side of the
      relative rectangle moves by its delta, nothing else changes. */
  function MoveRelative(l: Layout, left: real, top: real, right: real, bottom: real): (r: Layout)
    ensures r.relative.left - l.relative.left == left && r.relative.top - l.relative.top == top
    ensures r.relative.right - l.relative.right == right && r.relative.bottom - l.relative.bottom == bottom
    ensures r.anchors == l.anchors && r.alignment == l.alignment && r.padding == l.padding
  {
    l.(relative := MoveRect(l.relative, left, top, right, bottom))
  }

  /** `move_anchors`: the same for the anchors. */
  function MoveAnchors(l: Layout, left: real, top: real, right: real, bottom: real): (r: Layout)
    ensures r.anchors.left - l.anchors.left == left && r.anchors.top - l.anchors.top == top
    ensures r.anchors.right - l.anchors.right == right && r.anchors.bottom - l.anchors.bottom == bottom
    ensures r.relative == l.relative && r.alignment == l.alignment && r.padding == l.padding
  {
    l.(anchors := MoveRect(l.anchors, left, top, right, bottom))
  }

  /** Moving by some deltas and then by their negations gives the layout
      back. */
  lemma MoveRelativeUndone(l: Layout, left: real, top: real, right: real, bottom: real)
    ensures MoveRelative(MoveRelative(l, left, top, right, bottom), -left, -top, -right, -bottom) == l
  {
  }

  /** The layout after `l` in direction `d`: moved by its own width (or
      height) plus its padding, both opposing sides alike. */
  function Shifted(l: Layout, d: Direction): (r: Layout)
  {
    match d
    case Left =>
      var w := Width(l.relative) + l.padding;
      MoveRelative(l, -w, 0.0, -w, 0.0)
    case Up =>
      var h := Height(l.relative) + l.padding;
      MoveRelative(l, 0.0, -h, 0.0, -h)
    case Right =>
      var w := Width(l.relative) + l.padding;
      MoveRelative(l, w, 0.0, w, 0.0)
    case Down =>
      var h := Height(l.relative) + l.padding;
      MoveRelative(l, 0.0, h, 0.0, h)
  }

  /** A shift keeps the element's size, anchors, alignment and padding, and
      puts it one element plus padding away: the next element starts where
      this one ends plus the padding (`Right`, `Down`), or ends where this
      one starts minus the padding (`Left`, `Up`). */
  lemma ShiftedSpec(l: Layout, d: Direction)
    ensures var r := Shifted(l, d);
      Width(r.relative) == Width(l.relative) && Height(r.relative) == Height(l.relative) &&
      r.anchors == l.anchors && r.alignment == l.alignment && r.padding == l.padding &&
      (d == Right ==> r.relative.left == l.relative.right + l.padding && r.relative.top == l.relative.top) &&
      (d == Down ==> r.relative.top == l.relative.bottom + l.padding && r.relative.left == l.relative.left) &&
      (d == Left ==> r.relative.right == l.relative.left - l.padding && r.relative.top == l.relative.top) &&
      (d == Up ==> r.relative.bottom == l.relative.top - l.padding && r.relative.left == l.relative.left)
  {
  }

  function Opposite(d: Direction): Direction
  {
    match d
    case Left => Right
    case Right => Left
    case Up => Down
    case Down => Up
  }

  /** Shifting back the opposite way returns to the original layout. */
  lemma {:induction false} ShiftedBack(l: Layout, d: Direction)
    ensures Shifted(Shifted(l, d), Opposite(d)) == l
  {
    ShiftedSpec(l, d);
    var r := Shifted(l, d);
    assert Shifted(r, Opposite(d)).relative == l.relative;
  }

  /** `absolute`: each side is its relative position plus the window
      dimension along its axis times its anchor. */
  function Absolute(l: Layout, windowWidth: real, windowHeight: real): (r: Rect)
    ensures r.left - l.relative.left == windowWidth * l.anchors.left
    ensures r.top - l.relative.top == windowHeight * l.anchors.top
    ensures r.right - l.relative.right == windowWidth * l.anchors.right
    ensures r.bottom - l.relative.bottom == windowHeight * l.anchors.bottom
  {
    Rect(l.relative.left + windowWidth * l.anchors.left, l.relative.top + windowHeight * l.anchors.top,
         l.relative.right + windowWidth * l.anchors.right, l.relative.bottom + windowHeight * l.anchors.bottom)
  }

  /** Without anchors the layout is where its relative rectangle says; with
      left and right anchored alike, the width does not depend on the
      window. */
  lemma AbsoluteAnchoring(l: Layout, windowWidth: real, windowHeight: real)
    ensures l.anchors == Rect(0.0, 0.0, 0.0, 0.0) ==> Absolute(l, windowWidth, windowHeight) == l.relative
    ensures l.anchors.left == l.anchors.right ==>
      Width(Absolute(l, windowWidth, windowHeight)) == Width(l.relative)
    ensures l.anchors.top == l.anchors.bottom ==>
      Height(Absolute(l, windowWidth, windowHeight)) == Height(l.relative)
  {
  }

  /** `LAYOUT_CONTROLLER`: the layout for the next element and the
      direction the ones after it follow. */
  class LayoutController {
    var layout: Layout
    var direction: Direction

    /** The initial controller: a 100 by 16 rectangle at (16, 16), going
        down. */
    constructor ()
      ensures layout == WithRelative(NewLayout(), 16.0, 16.0, 116.0, 32.0) && direction == Down
    {
      layout := WithRelative(NewLayout(), 16.0, 16.0, 116.0, 32.0);
      direction := Down;
    }

    /** `define_layout`. */
    method DefineLayout(l: Layout)
      modifies this
      ensures layout == l && direction == old(direction)
    {
      layout := l;
    }

    /** `define_direction`. */
    method DefineDirection(d: Direction)
      modifies this
      ensures direction == d && layout == old(layout)
    {
      direction := d;
    }

    /** `Layout::for_next_element`: the stored layout as it was, with the
        stored one moved on in the stored direction. */
    method ForNextElement() returns (current: Layout)
      modifies this
      ensures current == old(layout)
      ensures layout == Shifted(old(layout), old(direction)) && direction == old(direction)
    {
      current := layout;
      var newLayout := current;
      match direction {
        case Left =>
          var w := Width(newLayout.relative) + newLayout.padding;
          newLayout := MoveRelative(newLayout, -w, 0.0, -w, 0.0);
        case Up =>
          var h := Height(newLayout.relative) + newLayout.padding;
          newLayout := MoveRelative(newLayout, 0.0, -h, 0.0, -h);
        case Right =>
          var w := Width(newLayout.relative) + newLayout.padding;
          newLayout := MoveRelative(newLayout, w, 0.0, w, 0.0);
        case Down =>
          var h := Height(newLayout.relative) + newLayout.padding;
          newLayout := MoveRelative(newLayout, 0.0, h, 0.0, h);
      }
      layout := newLayout;
    }
  }

  /** Elements laid out one after another going down form a column: the
      `n`-th one (from 0) is `n` element heights plus paddings below the
      first, as wide and as high as it. */
  function NthBelow(l: Layout, n: nat): Layout
  {
    if n == 0 then l else Shifted(NthBelow(l, n - 1), Down)
  }

  lemma {:induction false} ColumnGoingDown(l: Layout, n: nat)
    ensures var r := NthBelow(l, n).relative;
      var step := Height(l.relative) + l.padding;
      r.top == l.relative.top + n as real * step && r.bottom == l.relative.bottom + n as real * step &&
      r.left == l.relative.left && r.right == l.relative.right
    ensures NthBelow(l, n).padding == l.padding
  {
    if n > 0 {
      ColumnGoingDown(l, n - 1);
      var prev := NthBelow(l, n - 1);
      var r := Shifted(prev, Down);
      assert NthBelow(l, n) == r;
      var step := Height(l.relative) + l.padding;
      var k := (n - 1) as real;
      assert prev.relative.top == l.relative.top + k * step && prev.relative.bottom == l.relative.bottom + k * step;
      assert Height(prev.relative) + prev.padding == step;
      assert r.relative == MoveRect(prev.relative, 0.0, step, 0.0, step);
      assert n as real * step == k * step + step;
    }
  }
}
