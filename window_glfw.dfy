/**
 * The input bookkeeping of `Window::refresh` in `src/window_glfw.rs`. Each
 * frame the pressed and released keys and buttons, the typed characters,
 * the scroll and the dropped files start empty; then each of the frame's
 * events is applied in turn. (As written, the pressed and released
 * buttons are never emptied; see `FrameStartAsWritten`.) Unlike the glutin
 * backends, a key press is recorded even when the key is held already, and
 * a file drop replaces the dropped files rather than adding to them. Key
 * repeats are ignored.
 *
 * The events are a parameter of `Refresh`, and so is whether the window
 * was asked to close. Resizing (the window and framebuffer sizes, the
 * viewport) is not modelled. The DPI factor is that of a build for neither
 * Windows nor macOS (`HIDPI_AUTO` false), where it never changes after the
 * window is created.
 */
module WindowGlfw {
  import opened WindowInput

  datatype Action = Press | Release | Repeat

  /** GLFW's mouse buttons, numbered 1 to 8. */
  datatype GlfwButton = Button1 | Button2 | Button3 | Button4 | Button5 | Button6 | Button7 | Button8

  function ButtonNumber(b: GlfwButton): (n: nat)
    ensures 1 <= n <= 8
  {
    match b
    case Button1 => 1
    case Button2 => 2
    case Button3 => 3
    case Button4 => 4
    case Button5 => 5
    case Button6 => 6
    case Button7 => 7
    case Button8 => 8
  }

  /** The button mapping: buttons 1, 2 and 3 are left, right and middle;
      the others keep their number. */
  function FromGlfw(b: GlfwButton): (m: Mouse)
    ensures ButtonNumber(b) == 1 <==> m == Left
    ensures ButtonNumber(b) == 2 <==> m == Right
    ensures ButtonNumber(b) == 3 <==> m == Middle
    ensures m.Other? <==> ButtonNumber(b) >= 4
    ensures m.Other? ==> m.n == ButtonNumber(b)
  {
    match b
    case Button1 => Left
    case Button2 => Right
    case Button3 => Middle
    case Button4 => Other(4)
    case Button5 => Other(5)
    case Button6 => Other(6)
    case Button7 => Other(7)
    case Button8 => Other(8)
  }

  /** Different GLFW buttons are different window buttons. */
  lemma FromGlfwInjective(a: GlfwButton, b: GlfwButton)
    ensures FromGlfw(a) == FromGlfw(b) ==> a == b
  {
  }

  /** The window events `refresh` tells apart; `Unhandled` is any other. */
  datatype Event =
    | Key(key: nat, keyAction: Action)
    | Char(c: char)
    | MouseButton(button: GlfwButton, buttonAction: Action)
    | CursorPos(x: real, y: real)
    | CursorEnter(entered: bool)
    | Scroll(sx: real, sy: real)
    | FileDrop(paths: seq<string>)
    | Size(width: real, height: real)
    | FramebufferSize(fbWidth: real, fbHeight: real)
    | Unhandled

  /** The input state `refresh` updates. */
  datatype Frame = Frame(keys: Lists<nat>, buttons: Lists<Mouse>, typedChars: seq<char>,
                         mouseCoords: (real, real), mouseInside: bool, mouseScroll: (real, real),
                         droppedFiles: seq<string>)

  /** A press or release applied to held, pressed and released lists;
      a repeat changes nothing. */
  function Apply<T(==)>(l: Lists<T>, x: T, action: Action): Lists<T>
  {
    match action
    case Press => WindowInput.Press(l, x)
    case Release => WindowInput.Release(l, x)
    case Repeat => l
  }

  /** A key event on the keys; any other event leaves them alone. */
  function KeyStep(l: Lists<nat>, e: Event): Lists<nat>
  {
    if e.Key? then Apply(l, e.key, e.keyAction) else l
  }

  /** A mouse-button event on the buttons; any other event leaves them
      alone. */
  function ButtonStep(l: Lists<Mouse>, e: Event): Lists<Mouse>
  {
    if e.MouseButton? then Apply(l, FromGlfw(e.button), e.buttonAction) else l
  }

  /** One event on everything but the keys and buttons. The cursor
      position is divided by the DPI factor and the scroll multiplied by
      the scroll length. */
  function OtherStep(f: Frame, e: Event, dpiFactor: real, scrollLength: real): (g: Frame)
    requires dpiFactor != 0.0
    ensures g.keys == f.keys && g.buttons == f.buttons
  {
    match e
    case Char(c) => f.(typedChars := f.typedChars + [c])
    case CursorPos(x, y) => f.(mouseCoords := (x / dpiFactor, y / dpiFactor))
    case CursorEnter(entered) => f.(mouseInside := entered)
    case Scroll(sx, sy) => f.(mouseScroll := (scrollLength * sx, scrollLength * sy))
    case FileDrop(paths) => f.(droppedFiles := paths)
    case _ => f
  }

  /** One event, with the window's DPI factor and scroll length. */
  function Step(f: Frame, e: Event, dpiFactor: real, scrollLength: real): Frame
    requires dpiFactor != 0.0
  {
    OtherStep(f, e, dpiFactor, scrollLength).(keys := KeyStep(f.keys, e), buttons := ButtonStep(f.buttons, e))
  }

  function StepAll(f: Frame, events: seq<Event>, dpiFactor: real, scrollLength: real): Frame
    requires dpiFactor != 0.0
  {
    if |events| == 0 then f
    else Step(StepAll(f, events[..|events| - 1], dpiFactor, scrollLength), events[|events| - 1], dpiFactor, scrollLength)
  }

  /** The key press or release an event is, if any. */
  function KeyInput(e: Event): seq<Input<nat>>
  {
    if e.Key? && e.keyAction != Repeat then [Input(e.key, e.keyAction == Press)] else []
  }

  /** The mouse-button press or release an event is, if any. */
  function ButtonInput(e: Event): seq<Input<Mouse>>
  {
    if e.MouseButton? && e.buttonAction != Repeat then [Input(FromGlfw(e.button), e.buttonAction == Press)] else []
  }

  /** The key presses and releases among the events, in order. */
  function KeyInputs(events: seq<Event>): seq<Input<nat>>
  {
    if |events| == 0 then [] else KeyInputs(events[..|events| - 1]) + KeyInput(events[|events| - 1])
  }

  /** The mouse-button presses and releases among the events, in order. */
  function ButtonInputs(events: seq<Event>): seq<Input<Mouse>>
  {
    if |events| == 0 then [] else ButtonInputs(events[..|events| - 1]) + ButtonInput(events[|events| - 1])
  }

  /** Tracking one more input is one more press or release. */
  lemma TrackedSnoc<T>(l: Lists<T>, inputs: seq<Input<T>>, x: Input<T>)
    ensures Tracked(l, inputs + [x]) == if x.press then WindowInput.Press(Tracked(l, inputs), x.x) else WindowInput.Release(Tracked(l, inputs), x.x)
  {
    assert (inputs + [x])[..|inputs|] == inputs;
  }

  lemma KeyStepTracked(l: Lists<nat>, inputs: seq<Input<nat>>, e: Event)
    ensures KeyStep(Tracked(l, inputs), e) == Tracked(l, inputs + KeyInput(e))
  {
    if e.Key? && e.keyAction != Repeat {
      TrackedSnoc(l, inputs, Input(e.key, e.keyAction == Press));
    } else {
      assert inputs + KeyInput(e) == inputs;
    }
  }

  lemma ButtonStepTracked(l: Lists<Mouse>, inputs: seq<Input<Mouse>>, e: Event)
    ensures ButtonStep(Tracked(l, inputs), e) == Tracked(l, inputs + ButtonInput(e))
  {
    if e.MouseButton? && e.buttonAction != Repeat {
      TrackedSnoc(l, inputs, Input(FromGlfw(e.button), e.buttonAction == Press));
    } else {
      assert inputs + ButtonInput(e) == inputs;
    }
  }

  /** Keys and buttons alike are tracked with every press recorded: the
      frame's key lists are those its key inputs give, and the same for
      the buttons. */
  lemma {:induction false} KeysAndButtonsTracked(f: Frame, events: seq<Event>, dpiFactor: real, scrollLength: real)
    requires dpiFactor != 0.0
    ensures StepAll(f, events, dpiFactor, scrollLength).keys == Tracked(f.keys, KeyInputs(events))
    ensures StepAll(f, events, dpiFactor, scrollLength).buttons == Tracked(f.buttons, ButtonInputs(events))
  {
    if |events| > 0 {
      var init := events[..|events| - 1];
      KeysAndButtonsTracked(f, init, dpiFactor, scrollLength);
      KeyStepTracked(f.keys, KeyInputs(init), events[|events| - 1]);
      ButtonStepTracked(f.buttons, ButtonInputs(init), events[|events| - 1]);
    }
  }

  /** A key pressed twice in a frame is held twice. */
  lemma PressTwiceHeldTwice(f: Frame, key: nat, dpiFactor: real, scrollLength: real)
    requires dpiFactor != 0.0 && f.keys.held == []
    ensures StepAll(f, [Key(key, Press), Key(key, Press)], dpiFactor, scrollLength).keys.held == [key, key]
    ensures !NoDuplicates(StepAll(f, [Key(key, Press), Key(key, Press)], dpiFactor, scrollLength).keys.held)
  {
    var events := [Key(key, Press), Key(key, Press)];
    assert events[..1] == [Key(key, Press)] && events[..1][..0] == [];
    var once := StepAll(f, events[..1], dpiFactor, scrollLength);
    assert once == Step(StepAll(f, [], dpiFactor, scrollLength), Key(key, Press), dpiFactor, scrollLength);
    assert once.keys.held == [key];
    var held := StepAll(f, events, dpiFactor, scrollLength).keys.held;
    assert held == once.keys.held + [key];
    assert held[0] == held[1];
  }

  /** The dropped files are those of the frame's last drop. */
  lemma {:induction false} LastDropWins(f: Frame, events: seq<Event>, i: nat, dpiFactor: real, scrollLength: real)
    requires dpiFactor != 0.0
    requires i < |events| && events[i].FileDrop?
    requires forall j :: i < j < |events| ==> !events[j].FileDrop?
    ensures StepAll(f, events, dpiFactor, scrollLength).droppedFiles == events[i].paths
  {
    if i < |events| - 1 {
      var init := events[..|events| - 1];
      assert forall j :: i < j < |init| ==> init[j] == events[j];
      LastDropWins(f, init, i, dpiFactor, scrollLength);
    } else {
      assert events[|events| - 1] == events[i];
    }
  }

  /** Without a drop, the dropped files stay as they were. */
  lemma {:induction false} NoDropKeeps(f: Frame, events: seq<Event>, dpiFactor: real, scrollLength: real)
    requires dpiFactor != 0.0
    requires forall j :: 0 <= j < |events| ==> !events[j].FileDrop?
    ensures StepAll(f, events, dpiFactor, scrollLength).droppedFiles == f.droppedFiles
  {
    if |events| > 0 {
      var init := events[..|events| - 1];
      assert forall j :: 0 <= j < |init| ==> init[j] == events[j];
      NoDropKeeps(f, init, dpiFactor, scrollLength);
    }
  }

  /** The start of a frame: the pressed and released keys and buttons,
      the typed characters, the scroll and the dropped files are emptied;
      what is held, the cursor and whether it is inside stay. */
  function FrameStart(f: Frame): (g: Frame)
    ensures g.keys.held == f.keys.held && g.buttons.held == f.buttons.held
    ensures g.keys.pressed == g.keys.released == [] && g.buttons.pressed == g.buttons.released == []
    ensures g.typedChars == [] && g.droppedFiles == [] && g.mouseScroll == (0.0, 0.0)
    ensures g.mouseCoords == f.mouseCoords && g.mouseInside == f.mouseInside
  {
    Frame(Lists(f.keys.held, [], []), Lists(f.buttons.held, [], []), [], f.mouseCoords, f.mouseInside, (0.0, 0.0), [])
  }

  /** After a refresh, the pressed and released keys and buttons are those
      of the frame's own events, in order. */
  lemma FrameReportsOnlyItsOwnInput(f: Frame, events: seq<Event>, dpiFactor: real, scrollLength: real)
    requires dpiFactor != 0.0
    ensures var g := StepAll(FrameStart(f), events, dpiFactor, scrollLength);
      g.keys.pressed == Presses(KeyInputs(events)) && g.keys.released == Releases(KeyInputs(events)) &&
      g.buttons.pressed == Presses(ButtonInputs(events)) && g.buttons.released == Releases(ButtonInputs(events))
  {
    KeysAndButtonsTracked(FrameStart(f), events, dpiFactor, scrollLength);
    TrackedRecordsEveryInput(FrameStart(f).keys, KeyInputs(events));
    TrackedRecordsEveryInput(FrameStart(f).buttons, ButtonInputs(events));
  }

  /** The start of a frame as written: the pressed and released buttons
      are left as they were. */
  function FrameStartAsWritten(f: Frame): (g: Frame)
    ensures g.buttons == f.buttons
  {
    Frame(Lists(f.keys.held, [], []), f.buttons, [], f.mouseCoords, f.mouseInside, (0.0, 0.0), [])
  }

  /** As written, a click is reported again in the next frame, though that
      frame has no input at all; with the buttons emptied it is not. */
  lemma AsWrittenRepeatsClicks(dpiFactor: real, scrollLength: real)
    requires dpiFactor != 0.0
    ensures var clicked := StepAll(FrameStart(Frame(Lists([], [], []), Lists([], [], []), [], (0.0, 0.0), true, (0.0, 0.0), [])),
                                   [MouseButton(Button1, Press)], dpiFactor, scrollLength);
      clicked.buttons.pressed == [Left] &&
      StepAll(FrameStartAsWritten(clicked), [], dpiFactor, scrollLength).buttons.pressed == [Left] &&
      StepAll(FrameStart(clicked), [], dpiFactor, scrollLength).buttons.pressed == []
  {
    var events := [MouseButton(Button1, Press)];
    assert events[..0] == [];
  }

  /** One event of the loop; its one inner loop, the search of the held
      keys or buttons on a release, is `RemoveFirstIn`. */
  method StepEvent(f: Frame, e: Event, dpiFactor: real, scrollLength: real) returns (g: Frame)
    requires dpiFactor != 0.0
    ensures g == Step(f, e, dpiFactor, scrollLength)
  {
    if e.Key? && e.keyAction == Release {
      var held := RemoveFirstIn(f.keys.held, e.key);
      g := f.(keys := Lists(held, f.keys.pressed, f.keys.released + [e.key]));
    } else if e.MouseButton? && e.buttonAction == Release {
      var button := FromGlfw(e.button);
      var held := RemoveFirstIn(f.buttons.held, button);
      g := f.(buttons := Lists(held, f.buttons.pressed, f.buttons.released + [button]));
    } else {
      g := Step(f, e, dpiFactor, scrollLength);
    }
  }

  /** The event loop: each event in order. */
  method StepEvents(f: Frame, events: seq<Event>, dpiFactor: real, scrollLength: real) returns (g: Frame)
    requires dpiFactor != 0.0
    ensures g == StepAll(f, events, dpiFactor, scrollLength)
  {
    g := f;
    for i := 0 to |events|
      invariant g == StepAll(f, events[..i], dpiFactor, scrollLength)
    {
      assert events[..i + 1][..i] == events[..i];
      g := StepEvent(g, events[i], dpiFactor, scrollLength);
    }
    assert events[..|events|] == events;
  }

  /** `Window`, as far as its input goes. */
  class Window {
    var heldKeys: seq<nat>
    var pressedKeys: seq<nat>
    var releasedKeys: seq<nat>
    var typedChars: seq<char>
    var mouseInside: bool
    var mouseCoords: (real, real)
    var mouseScroll: (real, real)
    var mouseScrollLength: real
    var mouseHeld: seq<Mouse>
    var mousePressed: seq<Mouse>
    var mouseReleased: seq<Mouse>
    var droppedFiles: seq<string>
    var dpiFactor: real

    /** The cursor position is divided by the DPI factor, which is never
        zero. */
    ghost predicate Valid()
      reads this
    {
      dpiFactor != 0.0
    }

    /** The input state of a newly created window with the given DPI
        factor: nothing held, pressed or typed, the cursor at the origin
        and outside, and a scroll of 36 pixels a line. */
    constructor (dpiFactor: real)
      requires dpiFactor != 0.0
      ensures Valid() && this.dpiFactor == dpiFactor && mouseScrollLength == 36.0
      ensures Current() == Frame(Lists([], [], []), Lists([], [], []), [], (0.0, 0.0), false, (0.0, 0.0), [])
    {
      heldKeys, pressedKeys, releasedKeys, typedChars := [], [], [], [];
      mouseInside, mouseCoords, mouseScroll, mouseScrollLength := false, (0.0, 0.0), (0.0, 0.0), 36.0;
      mouseHeld, mousePressed, mouseReleased := [], [], [];
      droppedFiles := [];
      this.dpiFactor := dpiFactor;
    }

    /** The frame's input state as a value. */
    function Current(): Frame
      reads this
    {
      Frame(Lists(heldKeys, pressedKeys, releasedKeys), Lists(mouseHeld, mousePressed, mouseReleased),
            typedChars, mouseCoords, mouseInside, mouseScroll, droppedFiles)
    }

    /** `refresh`: the frame starts, then every event is applied in
        order. The result is whether the window should stay open. */
    method Refresh(events: seq<Event>, shouldClose: bool) returns (running: bool)
      requires Valid()
      modifies this
      ensures Valid() && running == !shouldClose
      ensures Current() == StepAll(FrameStart(old(Current())), events, old(dpiFactor), old(mouseScrollLength))
      ensures dpiFactor == old(dpiFactor) && mouseScrollLength == old(mouseScrollLength)
    {
      var f := StepEvents(FrameStart(Current()), events, dpiFactor, mouseScrollLength);
      SetFrame(f);
      running := !shouldClose;
    }

    /** Stores a frame's input state in the window's fields. */
    method SetFrame(f: Frame)
      modifies this`heldKeys, this`pressedKeys, this`releasedKeys, this`mouseHeld, this`mousePressed, this`mouseReleased
      modifies this`typedChars, this`mouseCoords, this`mouseInside, this`mouseScroll, this`droppedFiles
      ensures Current() == f
    {
      heldKeys := f.keys.held;
      pressedKeys := f.keys.pressed;
      releasedKeys := f.keys.released;
      mouseHeld := f.buttons.held;
      mousePressed := f.buttons.pressed;
      mouseReleased := f.buttons.released;
      typedChars := f.typedChars;
      mouseCoords := f.mouseCoords;
      mouseInside := f.mouseInside;
      mouseScroll := f.mouseScroll;
      droppedFiles := f.droppedFiles;
    }
  }
}
