/**
 * The UI elements of `src/ui/element.rs`: labels, buttons and editable
 * text fields. A button takes the mouse press (and the keyboard focus)
 * while the mouse is held down over it, and reports a click when the mouse
 * is released over it; a text field keeps its text and cursor position
 * from frame to frame and takes the focus when clicked.
 *
 * The UI state and the input strings, globals behind mutexes, are
 * objects. The element's rectangle, which `ui::new_element` computes from
 * the layout, is an input, and so is whether the mouse was just clicked
 * (`MouseStatus::clicked`); neither of those is part of this model. The
 * drawing of the element and the cursor blink timing are not modelled.
 */
module UiElement {
  import opened Wrappers

  const OuterTileWidth: real := 4.0
  const Padding: real := 2.0

  datatype ElementKind = NoBackground | ButtonNormal | ButtonHovered | ButtonPressed | InputField | KindCount

  /** A rectangle given by the position of each of its sides. */
  datatype Rect = Rect(left: real, top: real, right: real, bottom: real)

  datatype Element = Element(identifier: string, kind: ElementKind, rect: Rect)

  /** The mouse as the UI sees it: position, whether a button is held,
      and whether it was just clicked. */
  datatype MouseStatus = MouseStatus(x: real, y: real, pressed: bool, clicked: bool)

  /** `UIElement::is_point_inside`: the rectangle grown by the padding and
      the outer tile on every side, left and top edges included, right
      and bottom edges excluded. */
  function IsPointInside(r: Rect, x: real, y: real): (inside: bool)
    ensures inside <==> r.left - 6.0 <= x < r.right + 6.0 && r.top - 6.0 <= y < r.bottom + 6.0
  {
    !(x < r.left - Padding - OuterTileWidth || x >= r.right + Padding + OuterTileWidth ||
      y < r.top - Padding - OuterTileWidth || y >= r.bottom + Padding + OuterTileWidth)
  }

  /** A point inside a rectangle is inside the rectangle's element. */
  lemma InsideRectIsInside(r: Rect, x: real, y: real)
    requires r.left <= x < r.right && r.top <= y < r.bottom
    ensures IsPointInside(r, x, y)
  {
  }

  /** `char::is_control`: the C0 and C1 control characters and DEL. */
  predicate IsControl(c: char)
  {
    c < 0x20 as char || 0x7F as char <= c <= 0x9F as char
  }

  const Backspace: char := 0x8 as char

  /** `UI_STATE`, as far as the elements use it. */
  class UiState {
    /** `element_hash`. */
    const elementHash: string -> nat
    var elements: map<nat, Element>
    var lastElement: Option<Element>
    var mouse: MouseStatus
    var pressedElement: Option<nat>
    var focusedElement: Option<nat>
    var hovering: bool

    constructor (elementHash: string -> nat, mouse: MouseStatus)
      ensures this.elementHash == elementHash && this.mouse == mouse
      ensures elements == map[] && lastElement == None
      ensures pressedElement == None && focusedElement == None && !hovering
    {
      this.elementHash := elementHash;
      elements := map[];
      lastElement := None;
      this.mouse := mouse;
      pressedElement := None;
      focusedElement := None;
      hovering := false;
    }

    /** `insert_element`: the element becomes the last one and replaces any
        element stored under its id. */
    method InsertElement(element: Element)
      modifies this
      ensures lastElement == Some(element)
      ensures elements == old(elements)[elementHash(element.identifier) := element]
      ensures mouse == old(mouse) && pressedElement == old(pressedElement)
      ensures focusedElement == old(focusedElement) && hovering == old(hovering)
    {
      lastElement := Some(element);
      elements := elements[elementHash(element.identifier) := element];
    }

    /** `label`: an element without background. */
    method Label(identifier: string, rect: Rect)
      modifies this
      ensures lastElement == Some(Element(identifier, NoBackground, rect))
      ensures elements == old(elements)[elementHash(identifier) := Element(identifier, NoBackground, rect)]
      ensures mouse == old(mouse) && pressedElement == old(pressedElement)
      ensures focusedElement == old(focusedElement) && hovering == old(hovering)
    {
      InsertElement(Element(identifier, NoBackground, rect));
    }

    /** `button_meta`: a button at `rect`. While the mouse is held down over
        it and no other element holds the press, it takes the press and the
        focus and is drawn pressed; otherwise it is drawn hovered when the
        mouse is over it. The frame's hovering flag records it if hovered.
        The result is whether it was clicked. */
    method ButtonMeta(identifier: string, rect: Rect) returns (clicked: bool)
      modifies this
      ensures var id := elementHash(identifier);
        var hovered := IsPointInside(rect, old(mouse).x, old(mouse).y);
        var (kind, pressed', focused') := ButtonOutcome(old(mouse), hovered, old(pressedElement), old(focusedElement), id);
        pressedElement == pressed' && focusedElement == focused' &&
        lastElement == Some(Element(identifier, kind, rect)) &&
        elements == old(elements)[id := Element(identifier, kind, rect)] &&
        hovering == (old(hovering) || hovered) && mouse == old(mouse) &&
        clicked == (hovered && old(mouse).clicked && CanBePressed(old(pressedElement), id))
    {
      var element := Element(identifier, ButtonNormal, rect);
      var id := elementHash(identifier);
      var hovered := IsPointInside(rect, mouse.x, mouse.y);
      var justReleased := mouse.clicked;
      var canBePressed := pressedElement.None? || pressedElement.value == id;
      if mouse.pressed && hovered && canBePressed {
        pressedElement := Some(id);
        focusedElement := Some(id);
        element := element.(kind := ButtonPressed);
      } else if hovered {
        element := element.(kind := ButtonHovered);
      }
      hovering := hovering || hovered;
      InsertElement(element);
      clicked := hovered && justReleased && canBePressed;
    }
  }

  /** Whether the element with id `id` may take the press. */
  function CanBePressed(pressedElement: Option<nat>, id: nat): (can: bool)
    ensures can <==> pressedElement == None || pressedElement == Some(id)
  {
    pressedElement.None? || pressedElement.value == id
  }

  /** How `button_meta` draws a button and who holds the press and the
      focus after it. */
  function ButtonOutcome(mouse: MouseStatus, hovered: bool, pressedElement: Option<nat>,
                         focusedElement: Option<nat>, id: nat): (ElementKind, Option<nat>, Option<nat>)
  {
    if mouse.pressed && hovered && CanBePressed(pressedElement, id) then (ButtonPressed, Some(id), Some(id))
    else if hovered then (ButtonHovered, pressedElement, focusedElement)
    else (ButtonNormal, pressedElement, focusedElement)
  }

  /** The press and the focus move only together, only to this button,
      and only when it is drawn pressed; a press held by another element
      stays with it. */
  lemma ButtonOutcomeSpec(mouse: MouseStatus, hovered: bool, pressedElement: Option<nat>,
                          focusedElement: Option<nat>, id: nat)
    ensures var (kind, pressed', focused') := ButtonOutcome(mouse, hovered, pressedElement, focusedElement, id);
      (kind == ButtonPressed <==> mouse.pressed && hovered && CanBePressed(pressedElement, id)) &&
      (kind == ButtonPressed ==> pressed' == Some(id) && focused' == Some(id)) &&
      (kind != ButtonPressed ==> pressed' == pressedElement && focused' == focusedElement) &&
      (kind == ButtonNormal <==> !hovered) &&
      (pressedElement.Some? && pressedElement.value != id ==> pressed' == pressedElement)
  {
  }

  // ---------------------------------------------------------------------
  // Text input

  /** The effect of one typed character on a text and its cursor: a
      printable character is appended and moves the cursor on; a backspace
      removes the last character, if any, and moves the cursor back; other
      control characters do nothing. */
  function InsertChar(entry: (string, int), c: char): (r: (string, int))
  {
    var (text, cursor) := entry;
    if !IsControl(c) then (text + [c], cursor + 1)
    else if c == Backspace && |text| > 0 then (text[..|text| - 1], cursor - 1)
    else entry
  }

  /** An entry whose cursor sits at the end of its text. */
  predicate CursorAtEnd(entry: (string, int))
  {
    entry.1 == |entry.0|
  }

  /** Typing keeps the cursor at the end of the text, so the backspace
      never moves it below zero; typing a printable character and then a
      backspace gives the entry back. */
  lemma InsertCharSpec(entry: (string, int), c: char)
    requires CursorAtEnd(entry)
    ensures CursorAtEnd(InsertChar(entry, c))
    ensures !IsControl(c) ==> InsertChar(InsertChar(entry, c), Backspace) == entry
  {
    if !IsControl(c) {
      assert (entry.0 + [c])[..|entry.0|] == entry.0;
    }
  }

  /** `INPUT_STRINGS`: the text and cursor of each text field, by id. */
  class InputStrings {
    var strings: map<nat, (string, int)>

    ghost predicate Valid()
      reads this
    {
      forall id | id in strings :: CursorAtEnd(strings[id])
    }

    constructor ()
      ensures Valid() && strings == map[]
    {
      strings := map[];
    }

    /** `insert_input`: a typed character goes to the focused field, if it
        has one. */
    method InsertInput(focusedId: nat, input: char)
      requires Valid()
      modifies this
      ensures Valid()
      ensures focusedId in old(strings) ==> strings == old(strings)[focusedId := InsertChar(old(strings)[focusedId], input)]
      ensures focusedId !in old(strings) ==> strings == old(strings)
    {
      if focusedId in strings {
        var (text, cursor) := strings[focusedId];
        InsertCharSpec(strings[focusedId], input);
        if !IsControl(input) {
          strings := strings[focusedId := (text + [input], cursor + 1)];
        } else if input == Backspace && |text| > 0 {
          strings := strings[focusedId := (text[..|text| - 1], cursor - 1)];
        }
      }
    }

    /** `input`: a text field at `rect`. Its text starts as `defaultText`
        with the cursor at its end the first time its id is seen, and is
        kept after that; a click inside it takes the focus. The result is
        its text. */
    method Input(state: UiState, identifier: string, defaultText: string, rect: Rect) returns (text: string)
      requires Valid()
      modifies this, state
      ensures Valid()
      ensures var id := state.elementHash(identifier);
        strings == (if id in old(strings) then old(strings) else old(strings)[id := (defaultText, |defaultText|)]) &&
        text == strings[id].0 &&
        state.focusedElement ==
          (if old(state.mouse).clicked && IsPointInside(rect, old(state.mouse).x, old(state.mouse).y) then Some(id)
           else old(state.focusedElement)) &&
        state.elements == old(state.elements)[id := Element(identifier, InputField, rect)] &&
        state.lastElement == Some(Element(identifier, InputField, rect)) &&
        state.mouse == old(state.mouse) && state.pressedElement == old(state.pressedElement) &&
        state.hovering == old(state.hovering)
    {
      var element := Element(identifier, InputField, rect);
      var id := state.elementHash(identifier);
      var clicked := state.mouse.clicked;
      if clicked && IsPointInside(rect, state.mouse.x, state.mouse.y) {
        state.focusedElement := Some(id);
      }
      if id !in strings {
        strings := strings[id := (defaultText, |defaultText|)];
      }
      text := strings[id].0;
      state.InsertElement(element);
    }
  }
}
