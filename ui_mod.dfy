/**
 * The UI state of `src/ui/mod.rs`: elements are keyed by the hash of their
 * identifier, placed in a column below the last element of the frame
 * unless dimensions were registered for their identifier, and drawn as a
 * nine-patch frame of quads cut from the UI spritesheet.
 *
 * The UI state, a global behind a mutex, is an object. `element_hash`
 * (Rust's `DefaultHasher`) is a function the state is given. The drawing
 * is given the element's absolute rectangle, which `absolute` computes
 * from the window size. The text queued by `draw_element` and the window
 * size `update` stores are not modelled.
 */
module UiMod {
  import opened Wrappers

  const TileSize: real := 16.0
  const OuterTileWidth: real := 4.0
  const Padding: real := 2.0
  /** `SHEET_LENGTH`: element kinds in the spritesheet. */
  const SheetLength: real := 4.0

  datatype ElementKind = NoBackground | ButtonNormal | ButtonHovered | ButtonPressed | InputField | KindCount

  /** `kind as i32`. */
  function KindIndex(k: ElementKind): int
  {
    match k
    case NoBackground => -1
    case ButtonNormal => 0
    case ButtonHovered => 1
    case ButtonPressed => 2
    case InputField => 3
    case KindCount => 4
  }

  datatype Rect = Rect(x0: real, y0: real, x1: real, y1: real)

  datatype Dimensions = Dimensions(relative: Rect, anchors: Rect)

  datatype Element = Element(identifier: string, kind: ElementKind, dimensions: Dimensions)

  datatype MouseStatus = MouseStatus(x: real, y: real, lastPressed: bool, pressed: bool)

  /** The dimensions `new_element` gives by default: 88 by 16 at x 30, at
      y 30 for the first element of the frame and 44 below the last
      element otherwise, with no anchoring. */
  function DefaultDimensions(lastElement: Option<Element>): (d: Dimensions)
    ensures var y := if lastElement.None? then 30.0 else lastElement.value.dimensions.relative.y0 + 44.0;
      d.relative == Rect(30.0, y, 118.0, y + 16.0) && d.anchors == Rect(0.0, 0.0, 0.0, 0.0)
  {
    var y := if lastElement.Some? then lastElement.value.dimensions.relative.y0 + 16.0 + TileSize + OuterTileWidth * 3.0
             else 30.0;
    Dimensions(Rect(30.0, y, 30.0 + 88.0, y + 16.0), Rect(0.0, 0.0, 0.0, 0.0))
  }

  /** One quad passed to `renderer::draw_quad`: its corners, depth and
      texture corners. */
  datatype Quad = Quad(x0: real, y0: real, x1: real, y1: real, z: real, tx0: real, ty0: real, tx1: real, ty1: real)

  /** `NORMAL_UI_ELEMENT_DEPTH`. */
  const ElementDepth: real := 0.0

  /** The tile of the nine-patch in column `xi` and row `yi` around the
      absolute rectangle `r`: the corners are tile-sized, the middle row
      and column span the rectangle plus the padding; the texture is
      column `xi`, row `yi` of the element kind's 3 by 3 cell. */
  function NinePatchTile(r: Rect, kind: ElementKind, xi: nat, yi: nat): (q: Quad)
    requires xi < 3 && yi < 3
  {
    var tx := KindIndex(kind) as real / SheetLength;
    var tw := 1.0 / (3.0 * SheetLength);
    var th := 1.0 / 3.0;
    var x0s := [r.x0 - TileSize - Padding, r.x0 - Padding, r.x1 + Padding];
    var y0s := [r.y0 - TileSize - Padding, r.y0 - Padding, r.y1 + Padding];
    var x1s := [r.x0 - Padding, r.x1 + Padding, r.x1 + Padding + TileSize];
    var y1s := [r.y0 - Padding, r.y1 + Padding, r.y1 + Padding + TileSize];
    var txs := [tx, tx + tw, tx + tw * 2.0];
    var tys := [0.0, th, th * 2.0];
    Quad(x0s[xi], y0s[yi], x1s[xi], y1s[yi], ElementDepth, txs[xi], tys[yi], txs[xi] + tw, tys[yi] + th)
  }

  /** The nine tiles fit together: each tile starts where its left and
      upper neighbours end, the middle tile is the rectangle grown by the
      padding, and the corner tiles are tile-sized. */
  lemma NinePatchFits(r: Rect, kind: ElementKind, xi: nat, yi: nat)
    requires xi < 3 && yi < 3
    ensures var q := NinePatchTile(r, kind, xi, yi);
      (xi > 0 ==> q.x0 == NinePatchTile(r, kind, xi - 1, yi).x1) &&
      (yi > 0 ==> q.y0 == NinePatchTile(r, kind, xi, yi - 1).y1) &&
      (xi == 1 && yi == 1 ==> q.x0 == r.x0 - Padding && q.x1 == r.x1 + Padding &&
                              q.y0 == r.y0 - Padding && q.y1 == r.y1 + Padding) &&
      (xi != 1 ==> q.x1 - q.x0 == TileSize) && (yi != 1 ==> q.y1 - q.y0 == TileSize)
  {
  }

  /** The texture tiles also fit together, and stay within the element
      kind's cell of the spritesheet. */
  lemma NinePatchTexture(r: Rect, kind: ElementKind, xi: nat, yi: nat)
    requires xi < 3 && yi < 3
    ensures var q := NinePatchTile(r, kind, xi, yi);
      var cell := KindIndex(kind) as real / SheetLength;
      (xi > 0 ==> q.tx0 == NinePatchTile(r, kind, xi - 1, yi).tx1) &&
      (yi > 0 ==> q.ty0 == NinePatchTile(r, kind, xi, yi - 1).ty1) &&
      cell <= q.tx0 < q.tx1 <= cell + 1.0 / SheetLength && 0.0 <= q.ty0 < q.ty1 <= 1.0
  {
  }

  /** The quads `draw_element` draws for an element at `r`: none without a
      background, otherwise tile `i` of the nine-patch for `i` in 0..9,
      row by row. */
  method DrawElement(kind: ElementKind, r: Rect) returns (quads: seq<Quad>)
    ensures kind == NoBackground ==> quads == []
    ensures kind != NoBackground ==>
      |quads| == 9 && forall i :: 0 <= i < 9 ==> quads[i] == NinePatchTile(r, kind, i % 3, i / 3)
  {
    quads := [];
    if kind != NoBackground {
      for i := 0 to 9
        invariant |quads| == i
        invariant forall j :: 0 <= j < i ==> quads[j] == NinePatchTile(r, kind, j % 3, j / 3)
      {
        var xi := i % 3;
        var yi := i / 3;
        quads := quads + [NinePatchTile(r, kind, xi, yi)];
      }
    }
  }

  /** `UI_STATE`. */
  class UiState {
    /** `element_hash`. */
    const elementHash: string -> nat
    var elementDimensions: map<nat, Dimensions>
    var elements: map<nat, Element>
    var lastElement: Option<Element>
    var mouse: MouseStatus
    var pressedElement: Option<nat>
    var hovering: bool

    /** The initial state, for a given `element_hash`. */
    constructor (elementHash: string -> nat)
      ensures this.elementHash == elementHash
      ensures elementDimensions == map[] && elements == map[] && lastElement == None
      ensures mouse == MouseStatus(0.0, 0.0, false, false) && pressedElement == None && !hovering
    {
      this.elementHash := elementHash;
      elementDimensions := map[];
      elements := map[];
      lastElement := None;
      mouse := MouseStatus(0.0, 0.0, false, false);
      pressedElement := None;
      hovering := false;
    }

    /** `UIState::insert_element`: the element becomes the last one and
        replaces any element stored under its id. */
    method InsertElement(element: Element)
      modifies this
      ensures lastElement == Some(element)
      ensures elements == old(elements)[elementHash(element.identifier) := element]
      ensures elementDimensions == old(elementDimensions) && mouse == old(mouse)
      ensures pressedElement == old(pressedElement) && hovering == old(hovering)
    {
      lastElement := Some(element);
      elements := elements[elementHash(element.identifier) := element];
    }

    /** `define_element_dimensions`: the dimensions of the elements with
        this label from now on. */
    method DefineElementDimensions(elementLabel: string, dimensions: Dimensions)
      modifies this
      ensures elementDimensions == old(elementDimensions)[elementHash(elementLabel) := dimensions]
      ensures elements == old(elements) && lastElement == old(lastElement) && mouse == old(mouse)
      ensures pressedElement == old(pressedElement) && hovering == old(hovering)
    {
      elementDimensions := elementDimensions[elementHash(elementLabel) := dimensions];
    }

    /** `update`: the press is let go if the mouse was up during the frame,
        the frame's elements are forgotten, the new mouse is stored. The
        hovering flag is reset before it is read, so no hovering is ever
        reported. */
    method Update(newMouse: MouseStatus) returns (hoveringButton: bool)
      modifies this
      ensures pressedElement == if old(mouse).pressed then old(pressedElement) else None
      ensures elements == map[] && lastElement == None && mouse == newMouse && !hovering
      ensures elementDimensions == old(elementDimensions)
      ensures !hoveringButton
    {
      if !mouse.pressed {
        pressedElement := None;
      }
      elements := map[];
      lastElement := None;
      hovering := false;
      mouse := newMouse;
      hoveringButton := hovering;
    }

    /** `new_element`: an element of the given kind, with the dimensions
        registered for its identifier if there are any, and the default
        column dimensions otherwise. */
    function NewElement(identifier: string, kind: ElementKind): (e: Element)
      reads this
      ensures e.identifier == identifier && e.kind == kind
      ensures elementHash(identifier) in elementDimensions ==> e.dimensions == elementDimensions[elementHash(identifier)]
      ensures elementHash(identifier) !in elementDimensions ==> e.dimensions == DefaultDimensions(lastElement)
    {
      var id := elementHash(identifier);
      Element(identifier, kind, if id in elementDimensions then elementDimensions[id] else DefaultDimensions(lastElement))
    }
  }

  /** Elements without registered dimensions inserted one after another
      form a column 44 apart. */
  lemma DefaultColumn(first: Element)
    ensures var next := DefaultDimensions(Some(first));
      next.relative.y0 == first.dimensions.relative.y0 + 44.0 &&
      next.relative.y1 - next.relative.y0 == 16.0 && next.relative.x1 - next.relative.x0 == 88.0
  {
  }
}
