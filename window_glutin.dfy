/**
 * The input bookkeeping of `Window::refresh` in
 * `src/window/window_glutin.rs`. Each frame the scroll, the typed
 * characters and the dropped files start empty. The frame's window events
 * are then polled: a close request or the window's destruction stops the
 * window; key and mouse-button events are collected; characters, the
 * cursor, the scroll and files hovered over or dropped on the window are
 * recorded. Last, the collected keys and buttons update the held, pressed
 * and released lists.
 *
 * The events are the parameter of `Refresh`; paths are strings. Resizing
 * and DPI changes (the DPI arithmetic, the viewport and the window size)
 * are not modelled.
 */
module WindowGlutin {
  import opened Wrappers
  import opened WindowInput

  /** The window events `refresh` tells apart; `Unhandled` is any other. */
  datatype Event =
    | CloseRequested
    | Destroyed
    | Resized(width: real, height: real)
    | HiDpiFactorChanged(factor: real)
    | KeyboardInput(key: Option<nat>, pressed: bool)
    | ReceivedCharacter(c: char)
    | MouseInput(button: WinitButton, pressed: bool)
    | CursorMoved(x: real, y: real)
    | CursorEntered
    | CursorLeft
    | LineDelta(dx: real, dy: real)
    | PixelDelta(px: real, py: real)
    | DroppedFile(path: string)
    | HoveredFile(hovered: string)
    | HoveredFileCancelled
    | Unhandled

  /** What the polling closure accumulates. */
  datatype Polled = Polled(running: bool, keyInputs: seq<Input<nat>>, mouseInputs: seq<Input<Mouse>>,
                           typedChars: seq<char>, mouseCoords: (real, real), mouseInside: bool,
                           scroll: (real, real), droppedFiles: seq<string>, hoveredFiles: seq<string>)

  /** The polling closure on one event; a wheel turned by lines scrolls
      `scrollLength` pixels a line. */
  function PollOne(p: Polled, e: Event, scrollLength: real): Polled
  {
    if Closes(e) then p.(running := false)
    else if e.KeyboardInput? || e.MouseInput? then Collect(p, e)
    else if e.DroppedFile? || e.HoveredFile? || e.HoveredFileCancelled? then FileEvent(p, e)
    else CursorEvent(p, e, scrollLength)
  }

  /** The key and mouse-button events are collected for later; a key event
      without a key code is dropped. */
  function Collect(p: Polled, e: Event): (r: Polled)
    ensures r.(keyInputs := p.keyInputs, mouseInputs := p.mouseInputs) == p
  {
    match e
    case KeyboardInput(key, pressed) =>
      if key.Some? then p.(keyInputs := p.keyInputs + [Input(key.value, pressed)]) else p
    case MouseInput(button, pressed) => p.(mouseInputs := p.mouseInputs + [Input(FromWinit(button), pressed)])
    case _ => p
  }

  /** A dropped file stops being hovered (its first entry) and is
      recorded; a hovered file is recorded; a cancelled hover forgets every
      hovered file. */
  function FileEvent(p: Polled, e: Event): (r: Polled)
    ensures r.(droppedFiles := p.droppedFiles, hoveredFiles := p.hoveredFiles) == p
  {
    match e
    case DroppedFile(path) =>
      p.(hoveredFiles := RemoveFirst(p.hoveredFiles, path), droppedFiles := p.droppedFiles + [path])
    case HoveredFile(path) => p.(hoveredFiles := p.hoveredFiles + [path])
    case HoveredFileCancelled => p.(hoveredFiles := [])
    case _ => p
  }

  /** Typed characters, the cursor and the wheel. */
  function CursorEvent(p: Polled, e: Event, scrollLength: real): (r: Polled)
    ensures r.(typedChars := p.typedChars, mouseCoords := p.mouseCoords, mouseInside := p.mouseInside, scroll := p.scroll) == p
  {
    match e
    case ReceivedCharacter(c) => p.(typedChars := p.typedChars + [c])
    case CursorMoved(x, y) => p.(mouseCoords := (x, y))
    case CursorEntered => p.(mouseInside := true)
    case CursorLeft => p.(mouseInside := false)
    case LineDelta(dx, dy) => p.(scroll := (scrollLength * dx, scrollLength * dy))
    case PixelDelta(px, py) => p.(scroll := (px, py))
    case _ => p
  }

  function PollAll(p: Polled, events: seq<Event>, scrollLength: real): Polled
  {
    if |events| == 0 then p
    else PollOne(PollAll(p, events[..|events| - 1], scrollLength), events[|events| - 1], scrollLength)
  }

  /** Whether the event stops the window. */
  predicate Closes(e: Event)
  {
    e.CloseRequested? || e.Destroyed?
  }

  /** `refresh` keeps running unless a close was requested or the window
      was destroyed. */
  lemma {:induction false} RunningUnlessClosed(p: Polled, events: seq<Event>, scrollLength: real)
    ensures PollAll(p, events, scrollLength).running <==>
      p.running && forall i :: 0 <= i < |events| ==> !Closes(events[i])
  {
    if |events| > 0 {
      var init := events[..|events| - 1];
      RunningUnlessClosed(p, init, scrollLength);
      StepRunning(PollAll(p, init, scrollLength), events[|events| - 1], scrollLength);
      assert forall i :: 0 <= i < |init| ==> init[i] == events[i];
    }
  }

  lemma StepRunning(p: Polled, e: Event, scrollLength: real)
    ensures PollOne(p, e, scrollLength).running == (p.running && !Closes(e))
  {
  }

  /** The paths dropped among the events, in order. */
  function Dropped(events: seq<Event>): seq<string>
  {
    if |events| == 0 then []
    else
      var e := events[|events| - 1];
      Dropped(events[..|events| - 1]) + (if e.DroppedFile? then [e.path] else [])
  }

  /** The paths hovered among the events. */
  function Hovered(events: seq<Event>): seq<string>
  {
    if |events| == 0 then []
    else
      var e := events[|events| - 1];
      Hovered(events[..|events| - 1]) + (if e.HoveredFile? then [e.hovered] else [])
  }

  /** The dropped files are the frame's drops in order. */
  lemma {:induction false} DroppedThisFrame(p: Polled, events: seq<Event>, scrollLength: real)
    ensures PollAll(p, events, scrollLength).droppedFiles == p.droppedFiles + Dropped(events)
  {
    if |events| > 0 {
      var init := events[..|events| - 1];
      DroppedThisFrame(p, init, scrollLength);
    }
  }

  /** A file is hovered only if it was hovered before or during the frame,
      and no more often than that. */
  lemma {:induction false} HoveredThisFrame(p: Polled, events: seq<Event>, scrollLength: real)
    ensures multiset(PollAll(p, events, scrollLength).hoveredFiles) <= multiset(p.hoveredFiles) + multiset(Hovered(events))
  {
    if |events| > 0 {
      var init := events[..|events| - 1];
      HoveredThisFrame(p, init, scrollLength);
      StepHovered(PollAll(p, init, scrollLength), events[|events| - 1], scrollLength);
    }
  }

  lemma StepHovered(p: Polled, e: Event, scrollLength: real)
    ensures multiset(PollOne(p, e, scrollLength).hoveredFiles) <=
      multiset(p.hoveredFiles) + (if e.HoveredFile? then multiset{e.hovered} else multiset{})
  {
    if e.DroppedFile? {
      DropStopsHovering(p, e.path, scrollLength);
    } else if e.HoveredFile? {
      HoverAdds(p, e.hovered, scrollLength);
    } else {
      HoverUnchangedOrCleared(p, e, scrollLength);
    }
  }

  lemma HoverAdds(p: Polled, path: string, scrollLength: real)
    ensures multiset(PollOne(p, HoveredFile(path), scrollLength).hoveredFiles) == multiset(p.hoveredFiles) + multiset{path}
  {
    assert PollOne(p, HoveredFile(path), scrollLength).hoveredFiles == p.hoveredFiles + [path];
  }

  lemma HoverUnchangedOrCleared(p: Polled, e: Event, scrollLength: real)
    requires !e.DroppedFile? && !e.HoveredFile?
    ensures var after := PollOne(p, e, scrollLength).hoveredFiles;
      after == p.hoveredFiles || after == []
  {
  }

  /** A dropped file is no longer hovered, once. */
  lemma DropStopsHovering(p: Polled, path: string, scrollLength: real)
    ensures var after := PollOne(p, DroppedFile(path), scrollLength).hoveredFiles;
      (path in p.hoveredFiles ==> multiset(after) == multiset(p.hoveredFiles) - multiset{path}) &&
      (path !in p.hoveredFiles ==> after == p.hoveredFiles)
  {
    assert PollOne(p, DroppedFile(path), scrollLength).hoveredFiles == RemoveFirst(p.hoveredFiles, path);
    RemoveFirstSpec(p.hoveredFiles, path);
  }

  /** The polling: the closure for each event in order. */
  method Poll(start: Polled, events: seq<Event>, scrollLength: real) returns (p: Polled)
    ensures p == PollAll(start, events, scrollLength)
  {
    p := start;
    for i := 0 to |events|
      invariant p == PollAll(start, events[..i], scrollLength)
    {
      assert events[..i + 1][..i] == events[..i];
      p := PollEvent(p, events[i], scrollLength);
    }
    assert events[..|events|] == events;
  }

  /** The polling closure on one event. Its one loop, the search of the
      hovered files for a dropped one, is `RemoveFirstIn`. */
  method PollEvent(p: Polled, e: Event, scrollLength: real) returns (q: Polled)
    ensures q == PollOne(p, e, scrollLength)
  {
    if e.DroppedFile? {
      var hovered := RemoveFirstIn(p.hoveredFiles, e.path);
      q := p.(hoveredFiles := hovered, droppedFiles := p.droppedFiles + [e.path]);
    } else {
      q := PollOne(p, e, scrollLength);
    }
  }

  /** `Window`, as far as its input goes. */
  class Window {
    var heldKeys: seq<nat>
    var pressedKeys: seq<nat>
    var releasedKeys: seq<nat>
    var typedChars: seq<char>
    var mouseInside: bool
    var mouseCoords: (real, real)
    var mouseScroll: (real, real)
    var mouseScrollLength: real
    var mouseHeld: seq<Mouse>
    var mousePressed: seq<Mouse>
    var mouseReleased: seq<Mouse>
    var droppedFiles: seq<string>
    var hoveredFiles: seq<string>

    /** A key is held at most once. */
    ghost predicate Valid()
      reads this
    {
      NoDuplicates(heldKeys)
    }

    /** The input state of a newly created window, with a scroll of 36
        pixels a line. */
    constructor ()
      ensures Valid() && mouseScrollLength == 36.0
      ensures heldKeys == [] && pressedKeys == [] && releasedKeys == [] && typedChars == []
      ensures !mouseInside && mouseCoords == (0.0, 0.0) && mouseScroll == (0.0, 0.0)
      ensures mouseHeld == [] && mousePressed == [] && mouseReleased == []
      ensures droppedFiles == [] && hoveredFiles == []
    {
      heldKeys, pressedKeys, releasedKeys, typedChars := [], [], [], [];
      mouseInside, mouseCoords, mouseScroll := false, (0.0, 0.0), (0.0, 0.0);
      mouseScrollLength := 36.0;
      mouseHeld, mousePressed, mouseReleased := [], [], [];
      droppedFiles, hoveredFiles := [], [];
    }

    /** `refresh`: the frame's events are polled from an empty scroll, no
        typed characters and no dropped files; then the collected keys and
        buttons update the lists. The result is false once a close was
        requested or the window destroyed. */
    method Refresh(events: seq<Event>) returns (running: bool)
      requires Valid()
      modifies this
      ensures Valid()
      ensures var p := PollAll(Polled(true, [], [], [], old(mouseCoords), old(mouseInside), (0.0, 0.0), [], old(hoveredFiles)),
                               events, old(mouseScrollLength));
        running == p.running && typedChars == p.typedChars &&
        mouseCoords == p.mouseCoords && mouseInside == p.mouseInside && mouseScroll == p.scroll &&
        droppedFiles == p.droppedFiles && hoveredFiles == p.hoveredFiles &&
        Lists(heldKeys, pressedKeys, releasedKeys) == TrackedOnce(Lists(old(heldKeys), [], []), p.keyInputs) &&
        Lists(mouseHeld, mousePressed, mouseReleased) == Tracked(Lists(old(mouseHeld), [], []), p.mouseInputs)
      ensures mouseScrollLength == old(mouseScrollLength)
    {
      var p := Poll(Polled(true, [], [], [], mouseCoords, mouseInside, (0.0, 0.0), [], hoveredFiles),
                    events, mouseScrollLength);
      typedChars, mouseCoords, mouseInside, mouseScroll, droppedFiles, hoveredFiles :=
        p.typedChars, p.mouseCoords, p.mouseInside, p.scroll, p.droppedFiles, p.hoveredFiles;
      TrackKeys(p.keyInputs);
      TrackButtons(p.mouseInputs);
      running := p.running;
    }

    /** The keyboard part of `refresh`: the pressed and released keys are
        cleared, then each collected key input is applied. */
    method TrackKeys(inputs: seq<Input<nat>>)
      requires Valid()
      modifies this
      ensures Valid()
      ensures Lists(heldKeys, pressedKeys, releasedKeys) == TrackedOnce(Lists(old(heldKeys), [], []), inputs)
      ensures typedChars == old(typedChars) && mouseCoords == old(mouseCoords) && mouseInside == old(mouseInside)
      ensures mouseScroll == old(mouseScroll) && mouseScrollLength == old(mouseScrollLength)
      ensures droppedFiles == old(droppedFiles) && hoveredFiles == old(hoveredFiles)
      ensures mouseHeld == old(mouseHeld) && mousePressed == old(mousePressed) && mouseReleased == old(mouseReleased)
    {
      var keys := TrackKeysOnce(heldKeys, inputs);
      TrackedOnceKeepsHeldDistinct(Lists(heldKeys, [], []), inputs);
      heldKeys, pressedKeys, releasedKeys := keys.held, keys.pressed, keys.released;
    }

    /** The mouse part of `refresh`: the pressed and released buttons are
        cleared, then each collected button input is applied. */
    method TrackButtons(inputs: seq<Input<Mouse>>)
      requires Valid()
      modifies this
      ensures Valid()
      ensures Lists(mouseHeld, mousePressed, mouseReleased) == Tracked(Lists(old(mouseHeld), [], []), inputs)
      ensures typedChars == old(typedChars) && mouseCoords == old(mouseCoords) && mouseInside == old(mouseInside)
      ensures mouseScroll == old(mouseScroll) && mouseScrollLength == old(mouseScrollLength)
      ensures droppedFiles == old(droppedFiles) && hoveredFiles == old(hoveredFiles)
      ensures heldKeys == old(heldKeys) && pressedKeys == old(pressedKeys) && releasedKeys == old(releasedKeys)
    {
      var buttons := TrackAll(mouseHeld, inputs);
      mouseHeld, mousePressed, mouseReleased := buttons.held, buttons.pressed, buttons.released;
    }
  }
}
