/**
 * The UI elements of `src/ui/element/mod.rs`. Its `is_point_inside`,
 * `label` and `button_meta` are those of `src/ui/element.rs` (module
 * `UiElement`); this module adds the two buttons built on `button_meta`:
 * `button`, drawn from the UI spritesheet, and `button_image`, drawn as
 * one quad with a caller-given sprite.
 */
module UiElementMod {
  import opened Wrappers
  import opened UiElement

  /** The quad `button_image` draws: the button's rectangle with the
      caller's texture coordinates, color, depth and texture. */
  datatype ImageQuad = ImageQuad(coords: (real, real, real, real), texcoords: (real, real, real, real),
                                 color: (nat, nat, nat, nat), z: real, texIndex: nat)

  /** `button`: `button_meta` for a button at `rect`; the result is whether
      it was clicked. */
  method Button(state: UiState, identifier: string, rect: Rect) returns (clicked: bool)
    modifies state
    ensures var id := state.elementHash(identifier);
      var hovered := IsPointInside(rect, old(state.mouse).x, old(state.mouse).y);
      var (kind, pressed', focused') := ButtonOutcome(old(state.mouse), hovered, old(state.pressedElement), old(state.focusedElement), id);
      state.pressedElement == pressed' && state.focusedElement == focused' &&
      state.lastElement == Some(Element(identifier, kind, rect)) &&
      state.elements == old(state.elements)[id := Element(identifier, kind, rect)] &&
      state.hovering == (old(state.hovering) || hovered) && state.mouse == old(state.mouse) &&
      clicked == (hovered && old(state.mouse).clicked && CanBePressed(old(state.pressedElement), id))
  {
    clicked := state.ButtonMeta(identifier, rect);
  }

  /** `button_image`: `button_meta` for a button at `rect`, drawn as one
      quad covering `rect` with the given sprite; the result is whether it
      was clicked. */
  method ButtonImage(state: UiState, identifier: string, rect: Rect, texcoords: (real, real, real, real),
                     color: (nat, nat, nat, nat), z: real, texIndex: nat) returns (clicked: bool, quad: ImageQuad)
    modifies state
    ensures var id := state.elementHash(identifier);
      var hovered := IsPointInside(rect, old(state.mouse).x, old(state.mouse).y);
      var (kind, pressed', focused') := ButtonOutcome(old(state.mouse), hovered, old(state.pressedElement), old(state.focusedElement), id);
      state.pressedElement == pressed' && state.focusedElement == focused' &&
      state.lastElement == Some(Element(identifier, kind, rect)) &&
      state.elements == old(state.elements)[id := Element(identifier, kind, rect)] &&
      state.hovering == (old(state.hovering) || hovered) && state.mouse == old(state.mouse) &&
      clicked == (hovered && old(state.mouse).clicked && CanBePressed(old(state.pressedElement), id))
    ensures quad == ImageQuad((rect.left, rect.top, rect.right, rect.bottom), texcoords, color, z, texIndex)
  {
    clicked := state.ButtonMeta(identifier, rect);
    quad := ImageQuad((rect.left, rect.top, rect.right, rect.bottom), texcoords, color, z, texIndex);
  }
}
