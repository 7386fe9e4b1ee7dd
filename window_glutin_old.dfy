/**
 * The input bookkeeping of `Window::refresh` in `src/window_glutin.rs`.
 * The frame's window events are polled first: a close request stops the
 * window, key and mouse-button events are collected, typed characters and
 * the cursor are recorded. Then the collected keys and buttons update the
 * held, pressed and released lists, which start the frame empty but for
 * what was held before.
 *
 * The events are the parameter of `Refresh`. Resizing (the DPI arithmetic,
 * the viewport and the window size) is not modelled.
 */
module WindowGlutinOld {
  import opened Wrappers
  import opened WindowInput

  /** The window events `refresh` tells apart; `Unhandled` is any other. */
  datatype Event =
    | CloseRequested
    | Resized(width: real, height: real)
    | KeyboardInput(key: Option<nat>, pressed: bool)
    | ReceivedCharacter(c: char)
    | MouseInput(button: WinitButton, pressed: bool)
    | CursorMoved(x: real, y: real)
    | CursorEntered
    | CursorLeft
    | Unhandled

  /** What the polling closure accumulates. */
  datatype Polled = Polled(running: bool, keyInputs: seq<Input<nat>>, mouseInputs: seq<Input<Mouse>>,
                           typedChars: seq<char>, mouseCoords: (real, real), mouseInside: bool)

  /** The polling closure on one event. */
  function PollOne(p: Polled, e: Event): Polled
  {
    match e
    case CloseRequested => p.(running := false)
    case Resized(_, _) => p
    case KeyboardInput(key, pressed) =>
      if key.Some? then p.(keyInputs := p.keyInputs + [Input(key.value, pressed)]) else p
    case ReceivedCharacter(c) => p.(typedChars := p.typedChars + [c])
    case MouseInput(button, pressed) => p.(mouseInputs := p.mouseInputs + [Input(FromWinit(button), pressed)])
    case CursorMoved(x, y) => p.(mouseCoords := (x, y))
    case CursorEntered => p.(mouseInside := true)
    case CursorLeft => p.(mouseInside := false)
    case Unhandled => p
  }

  function PollAll(p: Polled, events: seq<Event>): Polled
  {
    if |events| == 0 then p else PollOne(PollAll(p, events[..|events| - 1]), events[|events| - 1])
  }

  /** The key presses and releases among the events, those with a key code,
      in order. */
  function KeyInputs(events: seq<Event>): seq<Input<nat>>
  {
    if |events| == 0 then []
    else
      var e := events[|events| - 1];
      KeyInputs(events[..|events| - 1]) +
        (if e.KeyboardInput? && e.key.Some? then [Input(e.key.value, e.pressed)] else [])
  }

  /** The characters typed among the events, in order. */
  function Typed(events: seq<Event>): seq<char>
  {
    if |events| == 0 then []
    else
      var e := events[|events| - 1];
      Typed(events[..|events| - 1]) + (if e.ReceivedCharacter? then [e.c] else [])
  }

  /** `refresh` keeps running unless a close was requested. */
  lemma {:induction false} RunningUnlessClosed(p: Polled, events: seq<Event>)
    ensures PollAll(p, events).running <==> p.running && forall i :: 0 <= i < |events| ==> events[i] != CloseRequested
  {
    if |events| > 0 {
      var init := events[..|events| - 1];
      RunningUnlessClosed(p, init);
      assert forall i :: 0 <= i < |init| ==> init[i] == events[i];
    }
  }

  /** `refresh` collects the frame's key events in order. */
  lemma {:induction false} CollectsKeys(p: Polled, events: seq<Event>)
    ensures PollAll(p, events).keyInputs == p.keyInputs + KeyInputs(events)
  {
    if |events| > 0 {
      CollectsKeys(p, events[..|events| - 1]);
    }
  }

  /** `refresh` records the frame's typed characters in order. */
  lemma {:induction false} RecordsTyped(p: Polled, events: seq<Event>)
    ensures PollAll(p, events).typedChars == p.typedChars + Typed(events)
  {
    if |events| > 0 {
      RecordsTyped(p, events[..|events| - 1]);
    }
  }

  /** The polling: the closure for each event in order. */
  method Poll(start: Polled, events: seq<Event>) returns (p: Polled)
    ensures p == PollAll(start, events)
  {
    p := start;
    for i := 0 to |events|
      invariant p == PollAll(start, events[..i])
    {
      assert events[..i + 1][..i] == events[..i];
      match events[i]
      case CloseRequested => p := p.(running := false);
      case Resized(_, _) =>
      case KeyboardInput(key, pressed) =>
        if key.Some? {
          p := p.(keyInputs := p.keyInputs + [Input(key.value, pressed)]);
        }
      case ReceivedCharacter(c) => p := p.(typedChars := p.typedChars + [c]);
      case MouseInput(button, pressed) => p := p.(mouseInputs := p.mouseInputs + [Input(FromWinit(button), pressed)]);
      case CursorMoved(x, y) => p := p.(mouseCoords := (x, y));
      case CursorEntered => p := p.(mouseInside := true);
      case CursorLeft => p := p.(mouseInside := false);
      case Unhandled =>
    }
    assert events[..|events|] == events;
  }

  /** `Window`, as far as its input goes. */
  class Window {
    var heldKeys: seq<nat>
    var pressedKeys: seq<nat>
    var releasedKeys: seq<nat>
    var typedChars: seq<char>
    var mouseInside: bool
    var mouseCoords: (real, real)
    var mouseHeld: seq<Mouse>
    var mousePressed: seq<Mouse>
    var mouseReleased: seq<Mouse>

    /** A key is held at most once. */
    ghost predicate Valid()
      reads this
    {
      NoDuplicates(heldKeys)
    }

    /** The input state of a newly created window. */
    constructor ()
      ensures Valid()
      ensures heldKeys == [] && pressedKeys == [] && releasedKeys == [] && typedChars == []
      ensures !mouseInside && mouseCoords == (0.0, 0.0)
      ensures mouseHeld == [] && mousePressed == [] && mouseReleased == []
    {
      heldKeys, pressedKeys, releasedKeys, typedChars := [], [], [], [];
      mouseInside, mouseCoords := false, (0.0, 0.0);
      mouseHeld, mousePressed, mouseReleased := [], [], [];
    }

    /** `refresh`: the frame's events are polled, then the collected keys and
        buttons update the lists. The result is false once a close was
        requested. */
    method Refresh(events: seq<Event>) returns (running: bool)
      requires Valid()
      modifies this
      ensures Valid()
      ensures var p := PollAll(Polled(true, [], [], [], old(mouseCoords), old(mouseInside)), events);
        running == p.running && typedChars == p.typedChars &&
        mouseCoords == p.mouseCoords && mouseInside == p.mouseInside &&
        Lists(heldKeys, pressedKeys, releasedKeys) == TrackedOnce(Lists(old(heldKeys), [], []), p.keyInputs) &&
        Lists(mouseHeld, mousePressed, mouseReleased) == Tracked(Lists(old(mouseHeld), [], []), p.mouseInputs)
    {
      var p := Poll(Polled(true, [], [], [], mouseCoords, mouseInside), events);
      typedChars, mouseCoords, mouseInside := p.typedChars, p.mouseCoords, p.mouseInside;
      TrackKeys(p.keyInputs);
      TrackButtons(p.mouseInputs);
      running := p.running;
    }
    /** The keyboard part of `refresh`: the pressed and released keys are
        cleared, then each collected key input is applied. */
    method TrackKeys(inputs: seq<Input<nat>>)
      requires Valid()
      modifies this
      ensures Valid()
      ensures Lists(heldKeys, pressedKeys, releasedKeys) == TrackedOnce(Lists(old(heldKeys), [], []), inputs)
      ensures typedChars == old(typedChars) && mouseCoords == old(mouseCoords) && mouseInside == old(mouseInside)
      ensures mouseHeld == old(mouseHeld) && mousePressed == old(mousePressed) && mouseReleased == old(mouseReleased)
    {
      var keys := TrackKeysOnce(heldKeys, inputs);
      TrackedOnceKeepsHeldDistinct(Lists(heldKeys, [], []), inputs);
      heldKeys, pressedKeys, releasedKeys := keys.held, keys.pressed, keys.released;
    }

    /** The mouse part of `refresh`: the pressed and released buttons are
        cleared, then each collected button input is applied. */
    method TrackButtons(inputs: seq<Input<Mouse>>)
      requires Valid()
      modifies this
      ensures Valid()
      ensures Lists(mouseHeld, mousePressed, mouseReleased) == Tracked(Lists(old(mouseHeld), [], []), inputs)
      ensures typedChars == old(typedChars) && mouseCoords == old(mouseCoords) && mouseInside == old(mouseInside)
      ensures heldKeys == old(heldKeys) && pressedKeys == old(pressedKeys) && releasedKeys == old(releasedKeys)
    {
      var buttons := TrackAll(mouseHeld, inputs);
      mouseHeld, mousePressed, mouseReleased := buttons.held, buttons.pressed, buttons.released;
    }
  }
}
