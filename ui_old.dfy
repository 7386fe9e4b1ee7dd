/**
 * The immediate-mode UI of `src/ui.rs`. Each frame, labels and buttons are
 * stacked in one column and remembered until the next `update`; a button
 * is drawn pressed while the mouse holds it down, and reports a click when
 * the mouse is released over it. A button can only be pressed if no other
 * button holds the press.
 *
 * The UI state, a global behind a mutex, is an object. Drawing the element
 * (its nine quads and its text) and `renderer::render` are not modelled.
 */
module UiOld {
  import opened Wrappers

  /** `TILE_SIZE`, `OUTER_TILE_WIDTH` and `PADDING`, in pixels. */
  const TileSize: real := 16.0
  const OuterTileWidth: real := 4.0
  const Padding: real := 2.0

  /** Vertical distance between consecutive elements:
      `16 + TILE_SIZE + 3 * OUTER_TILE_WIDTH`. */
  const Spacing: real := 16.0 + TileSize + OuterTileWidth * 3.0

  datatype ElementType = NoBackground | ButtonNormal | ButtonHovered | ButtonPressed | Panel

  datatype Element = Element(id: nat, t: ElementType, x: real, y: real, w: real, h: real)

  datatype MouseStatus = MouseStatus(x: real, y: real, lastPressed: bool, pressed: bool)

  /** `UIElement::is_point_inside`: the element's box grown by the padding
      and the outer tile on every side, left and top edges included, right
      and bottom edges excluded. */
  function IsPointInside(e: Element, x: real, y: real): (inside: bool)
    ensures inside <==>
      e.x - 6.0 <= x < e.x + e.w + 6.0 && e.y - 6.0 <= y < e.y + e.h + 6.0
  {
    !(x < e.x - Padding - OuterTileWidth || x >= e.x + e.w + Padding + OuterTileWidth ||
      y < e.y - Padding - OuterTileWidth || y >= e.y + e.h + Padding + OuterTileWidth)
  }

  /** `new_element`: the next element of the column, 88 by 16 at x 30, at
      y 30 for the first element and one spacing below the last one
      otherwise; its id is its position. */
  function NewElement(elements: seq<Element>, t: ElementType): (e: Element)
    ensures e.id == |elements| && e.t == t && e.x == 30.0 && e.w == 88.0 && e.h == 16.0
    ensures e.y == if |elements| == 0 then 30.0 else elements[|elements| - 1].y + 44.0
  {
    Element(|elements|, t, 30.0,
            if |elements| == 0 then 30.0 else elements[|elements| - 1].y + Spacing,
            88.0, 16.0)
  }

  /** The elements of a frame form the column `new_element` lays out:
      element `i` has id `i` and sits `i` spacings below the first. */
  ghost predicate Column(elements: seq<Element>)
  {
    forall i :: 0 <= i < |elements| ==>
      elements[i].id == i && elements[i].x == 30.0 && elements[i].w == 88.0 && elements[i].h == 16.0 &&
      elements[i].y == 30.0 + 44.0 * i as real
  }

  /** Adding `new_element`'s element keeps the column. */
  lemma NewElementExtendsColumn(elements: seq<Element>, t: ElementType)
    requires Column(elements)
    ensures Column(elements + [NewElement(elements, t)])
  {
    var e := NewElement(elements, t);
    var n := |elements|;
    if n > 0 {
      assert elements[n - 1].y == 30.0 + 44.0 * (n - 1) as real;
      assert e.y == 30.0 + 44.0 * n as real;
    }
  }

  /** Column elements never overlap: each one's box ends above the next
      one's. */
  lemma ColumnDoesNotOverlap(elements: seq<Element>, i: nat, j: nat)
    requires Column(elements) && i < j < |elements|
    ensures elements[i].y + elements[i].h < elements[j].y
  {
    assert 44.0 * i as real + 44.0 <= 44.0 * j as real;
  }

  /** Whether a button with id `id` may take the press: nobody holds it, or
      the button itself does. */
  function CanBePressed(pressedElement: Option<nat>, id: nat): (can: bool)
    ensures can <==> pressedElement == None || pressedElement == Some(id)
  {
    pressedElement.None? || pressedElement.value == id
  }

  /** How a button is drawn and who holds the press after it: pressed, and
      holding the press, when the mouse is down over it and it may take the
      press; hovered when the mouse is over it otherwise; normal else. */
  function ButtonState(mouse: MouseStatus, hovered: bool, pressedElement: Option<nat>, id: nat): (r: (ElementType, Option<nat>))
  {
    if mouse.pressed && hovered && CanBePressed(pressedElement, id) then (ButtonPressed, Some(id))
    else if hovered then (ButtonHovered, pressedElement)
    else (ButtonNormal, pressedElement)
  }

  /** The press changes hands only to a button the mouse is down over, and
      never away from another button holding it. */
  lemma ButtonStateSpec(mouse: MouseStatus, hovered: bool, pressedElement: Option<nat>, id: nat)
    ensures var (t, pressed') := ButtonState(mouse, hovered, pressedElement, id);
      (t == ButtonPressed <==> mouse.pressed && hovered && CanBePressed(pressedElement, id)) &&
      (t == ButtonPressed ==> pressed' == Some(id)) && (t != ButtonPressed ==> pressed' == pressedElement) &&
      (pressedElement.Some? && pressedElement.value != id ==> pressed' == pressedElement && t != ButtonPressed) &&
      (t == ButtonNormal <==> !hovered)
  {
  }

  /** Whether a button reports a click: the mouse was just released over it
      and it may take the press. */
  function Clicked(mouse: MouseStatus, hovered: bool, pressedElement: Option<nat>, id: nat): bool
  {
    hovered && !mouse.pressed && mouse.lastPressed && CanBePressed(pressedElement, id)
  }

  /** A click never comes with the button drawn pressed, and needs the
      mouse released over the button in this frame. */
  lemma ClickIsARelease(mouse: MouseStatus, hovered: bool, pressedElement: Option<nat>, id: nat)
    requires Clicked(mouse, hovered, pressedElement, id)
    ensures ButtonState(mouse, hovered, pressedElement, id).0 == ButtonHovered
    ensures mouse.lastPressed && !mouse.pressed
  {
  }

  /** `UI_STATE`. */
  class UiState {
    var elements: seq<Element>
    var mouse: MouseStatus
    var pressedElement: Option<nat>
    var hovering: bool

    ghost predicate Valid()
      reads this
    {
      Column(elements)
    }

    /** The initial state: no elements, the mouse at the origin and
        released, nothing pressed, nothing hovered. */
    constructor ()
      ensures Valid()
      ensures elements == [] && mouse == MouseStatus(0.0, 0.0, false, false)
      ensures pressedElement == None && !hovering
    {
      elements := [];
      mouse := MouseStatus(0.0, 0.0, false, false);
      pressedElement := None;
      hovering := false;
    }

    /** `update`: the press is let go if the mouse was up during the frame,
        the frame's elements are forgotten, the new mouse is stored, and
        whether a button was hovered during the frame is reported and
        reset. */
    method Update(newMouse: MouseStatus) returns (hoveringButton: bool)
      modifies this
      ensures Valid()
      ensures pressedElement == if old(mouse).pressed then old(pressedElement) else None
      ensures elements == [] && mouse == newMouse
      ensures hoveringButton == old(hovering) && !hovering
    {
      if !mouse.pressed {
        pressedElement := None;
      }
      elements := [];
      mouse := newMouse;
      hoveringButton := hovering;
      hovering := false;
    }

    /** `label`: one panel appended to the column. */
    method Label()
      requires Valid()
      modifies this
      ensures Valid()
      ensures elements == old(elements) + [NewElement(old(elements), Panel)]
      ensures mouse == old(mouse) && pressedElement == old(pressedElement) && hovering == old(hovering)
    {
      var element := NewElement(elements, Panel);
      NewElementExtendsColumn(elements, Panel);
      elements := elements + [element];
    }

    /** `button`: one button appended to the column, drawn and taking the
        press as `ButtonState` says; the frame's hovering flag records it
        if hovered; the result is whether it was clicked. */
    method Button() returns (clicked: bool)
      requires Valid()
      modifies this
      ensures Valid()
      ensures var e := NewElement(old(elements), ButtonNormal);
        var hovered := IsPointInside(e, old(mouse).x, old(mouse).y);
        var (t, pressed') := ButtonState(old(mouse), hovered, old(pressedElement), e.id);
        elements == old(elements) + [e.(t := t)] && pressedElement == pressed' &&
        hovering == (old(hovering) || hovered) && mouse == old(mouse) &&
        clicked == Clicked(old(mouse), hovered, old(pressedElement), e.id)
    {
      var element := NewElement(elements, ButtonNormal);
      NewElementExtendsColumn(elements, ButtonNormal);
      var hovered := IsPointInside(element, mouse.x, mouse.y);
      var justReleased := !mouse.pressed && mouse.lastPressed;
      var canBePressed := pressedElement.None? || pressedElement.value == element.id;
      if mouse.pressed && hovered && canBePressed {
        element := element.(t := ButtonPressed);
        pressedElement := Some(element.id);
      } else if hovered {
        element := element.(t := ButtonHovered);
      }
      elements := elements + [element];
      hovering := hovering || hovered;
      clicked := hovered && justReleased && canBePressed;
    }
  }
}
