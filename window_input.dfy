/**
 * The key and mouse-button bookkeeping the window backends share
 * (`src/window/window_glutin.rs`, `src/window_glutin.rs` and
 * `src/window_glfw.rs`). Every frame the pressed and released lists start
 * empty; a press is appended to the pressed and held lists, and a release
 * to the released list, removing the first equal entry from the held list.
 * The glutin backends record a key press only when the key is not held
 * already, so their held keys never repeat.
 *
 * Keys are their key codes. `src/mouse.rs` is not part of this model; its
 * `Mouse` is the datatype below.
 */
module WindowInput {
  /** `Mouse`: the buttons a window reports. */
  datatype Mouse = Left | Right | Middle | Other(n: nat)

  predicate NoDuplicates<T(==)>(s: seq<T>)
  {
    forall i, j :: 0 <= i < j < |s| ==> s[i] != s[j]
  }

  /** The list with its first `x` removed, if it has one. */
  function RemoveFirst<T(==)>(s: seq<T>, x: T): seq<T>
  {
    if |s| == 0 then s else if s[0] == x then s[1..] else [s[0]] + RemoveFirst(s[1..], x)
  }

  /** Removing the first `x` takes exactly one `x` out of a list holding
      one and changes nothing else. */
  lemma {:induction false} RemoveFirstSpec<T>(s: seq<T>, x: T)
    ensures x !in s ==> RemoveFirst(s, x) == s
    ensures x in s ==> multiset(RemoveFirst(s, x)) == multiset(s) - multiset{x} && |RemoveFirst(s, x)| == |s| - 1
  {
    if |s| > 0 {
      assert s == [s[0]] + s[1..];
      RemoveFirstSpec(s[1..], x);
    }
  }

  /** A list without duplicates keeps none when its first `x` is removed,
      and no longer holds `x`. */
  lemma {:induction false} RemoveFirstKeepsDistinct<T>(s: seq<T>, x: T)
    requires NoDuplicates(s)
    ensures NoDuplicates(RemoveFirst(s, x)) && x !in RemoveFirst(s, x)
  {
    if |s| > 0 {
      DistinctTail(s);
      RemoveFirstKeepsDistinct(s[1..], x);
      if s[0] != x {
        var r := RemoveFirst(s[1..], x);
        RemoveFirstSpec(s[1..], x);
        assert multiset(s[1..])[s[0]] == 0;
        assert multiset(r)[s[0]] == 0;
        DistinctCons(s[0], r);
      }
    }
  }

  lemma DistinctTail<T>(s: seq<T>)
    requires NoDuplicates(s) && |s| > 0
    ensures NoDuplicates(s[1..]) && s[0] !in s[1..]
  {
    forall i, j | 0 <= i < j < |s[1..]| ensures s[1..][i] != s[1..][j] {
      assert s[1..][i] == s[i + 1] && s[1..][j] == s[j + 1];
    }
    forall j | 0 <= j < |s[1..]| ensures s[1..][j] != s[0] {
      assert s[1..][j] == s[j + 1];
    }
  }

  lemma DistinctCons<T>(a: T, r: seq<T>)
    requires NoDuplicates(r) && a !in r
    ensures NoDuplicates([a] + r)
  {
    forall i, j | 0 <= i < j < |[a] + r| ensures ([a] + r)[i] != ([a] + r)[j] {
      assert ([a] + r)[j] == r[j - 1];
      if i > 0 {
        assert ([a] + r)[i] == r[i - 1];
      }
    }
  }

  /** The search loop of a release: the first `x` found is removed and the
      search stops. */
  method RemoveFirstIn<T(==)>(s: seq<T>, x: T) returns (r: seq<T>)
    ensures r == RemoveFirst(s, x)
  {
    r := s;
    var i := 0;
    while i < |s|
      invariant 0 <= i <= |s|
      invariant x !in s[..i]
      invariant RemoveFirst(s, x) == s[..i] + RemoveFirst(s[i..], x)
    {
      assert s[i..] == [s[i]] + s[i + 1..];
      if s[i] == x {
        r := s[..i] + s[i + 1..];
        return;
      }
      assert s[..i + 1] == s[..i] + [s[i]];
      i := i + 1;
    }
    assert s[..|s|] == s;
  }

  /** The `already_pressed` loop: whether `x` is in the list. */
  method Contains<T(==)>(s: seq<T>, x: T) returns (found: bool)
    ensures found <==> x in s
  {
    found := false;
    for i := 0 to |s|
      invariant x !in s[..i]
    {
      if s[i] == x {
        return true;
      }
      assert s[..i + 1] == s[..i] + [s[i]];
    }
    assert s[..|s|] == s;
  }

  /** The held, pressed and released lists of keys or buttons. */
  datatype Lists<T> = Lists(held: seq<T>, pressed: seq<T>, released: seq<T>)

  /** One input: what it is about and whether it is a press. */
  datatype Input<T> = Input(x: T, press: bool)

  /** A press recorded always. */
  function Press<T>(l: Lists<T>, x: T): Lists<T>
  {
    Lists(l.held + [x], l.pressed + [x], l.released)
  }

  /** A press recorded only when not held already. */
  function PressUnlessHeld<T(==)>(l: Lists<T>, x: T): Lists<T>
  {
    if x in l.held then l else Press(l, x)
  }

  function Release<T(==)>(l: Lists<T>, x: T): Lists<T>
  {
    Lists(RemoveFirst(l.held, x), l.pressed, l.released + [x])
  }

  /** The lists after the inputs, every press recorded (the mouse buttons;
      the keys of `src/window_glfw.rs`). */
  function Tracked<T(==)>(l: Lists<T>, inputs: seq<Input<T>>): Lists<T>
  {
    if |inputs| == 0 then l
    else
      var before := Tracked(l, inputs[..|inputs| - 1]);
      var last := inputs[|inputs| - 1];
      if last.press then Press(before, last.x) else Release(before, last.x)
  }

  /** The lists after the inputs, a press recorded only when not held (the
      keys of the glutin backends). */
  function TrackedOnce<T(==)>(l: Lists<T>, inputs: seq<Input<T>>): Lists<T>
  {
    if |inputs| == 0 then l
    else
      var before := TrackedOnce(l, inputs[..|inputs| - 1]);
      var last := inputs[|inputs| - 1];
      if last.press then PressUnlessHeld(before, last.x) else Release(before, last.x)
  }

  /** What the inputs press, and what they release, in order. */
  function Presses<T>(inputs: seq<Input<T>>): (r: seq<T>)
    ensures |r| <= |inputs|
  {
    if |inputs| == 0 then []
    else Presses(inputs[..|inputs| - 1]) + (if inputs[|inputs| - 1].press then [inputs[|inputs| - 1].x] else [])
  }

  function Releases<T>(inputs: seq<Input<T>>): (r: seq<T>)
    ensures |r| <= |inputs|
  {
    if |inputs| == 0 then []
    else Releases(inputs[..|inputs| - 1]) + (if inputs[|inputs| - 1].press then [] else [inputs[|inputs| - 1].x])
  }

  /** With every press recorded, the pressed and released lists gain
      exactly the frame's presses and releases, in order. */
  lemma {:induction false} TrackedRecordsEveryInput<T>(l: Lists<T>, inputs: seq<Input<T>>)
    ensures Tracked(l, inputs).pressed == l.pressed + Presses(inputs)
    ensures Tracked(l, inputs).released == l.released + Releases(inputs)
  {
    if |inputs| > 0 {
      TrackedRecordsEveryInput(l, inputs[..|inputs| - 1]);
    }
  }

  /** With presses of held keys ignored, held keys never repeat, every
      release is recorded, and the keys recorded as pressed are some of the
      presses. */
  lemma {:induction false} TrackedOnceKeepsHeldDistinct<T>(l: Lists<T>, inputs: seq<Input<T>>)
    requires NoDuplicates(l.held)
    ensures NoDuplicates(TrackedOnce(l, inputs).held)
    ensures TrackedOnce(l, inputs).released == l.released + Releases(inputs)
    ensures multiset(TrackedOnce(l, inputs).pressed) <= multiset(l.pressed + Presses(inputs))
  {
    if |inputs| > 0 {
      var init := inputs[..|inputs| - 1];
      TrackedOnceKeepsHeldDistinct(l, init);
      var before := TrackedOnce(l, init);
      var last := inputs[|inputs| - 1];
      if last.press {
        if last.x !in before.held {
          forall i, j | 0 <= i < j < |before.held + [last.x]|
            ensures (before.held + [last.x])[i] != (before.held + [last.x])[j]
          {
            if j == |before.held| {
              assert (before.held + [last.x])[i] == before.held[i];
            }
          }
        }
      } else {
        RemoveFirstKeepsDistinct(before.held, last.x);
      }
    }
  }

  /** A release of a held key or button takes one of it out of the held
      list; with no duplicates, it is no longer held. */
  lemma ReleaseSpec<T>(l: Lists<T>, x: T)
    ensures x in l.held ==> multiset(Release(l, x).held) == multiset(l.held) - multiset{x}
    ensures x !in l.held ==> Release(l, x).held == l.held
    ensures NoDuplicates(l.held) ==> x !in Release(l, x).held
  {
    RemoveFirstSpec(l.held, x);
    if NoDuplicates(l.held) {
      RemoveFirstKeepsDistinct(l.held, x);
    }
  }

  /** The keyboard loop of the glutin backends: for each key input, a press
      checks the held keys first; a release removes the first held copy. */
  method TrackKeysOnce<T(==)>(held: seq<T>, inputs: seq<Input<T>>) returns (l: Lists<T>)
    ensures l == TrackedOnce(Lists(held, [], []), inputs)
  {
    l := Lists(held, [], []);
    for i := 0 to |inputs|
      invariant l == TrackedOnce(Lists(held, [], []), inputs[..i])
    {
      assert inputs[..i + 1][..i] == inputs[..i];
      var input := inputs[i];
      if input.press {
        var alreadyPressed := Contains(l.held, input.x);
        if !alreadyPressed {
          l := Lists(l.held + [input.x], l.pressed + [input.x], l.released);
        }
      } else {
        var rest := RemoveFirstIn(l.held, input.x);
        l := Lists(rest, l.pressed, l.released + [input.x]);
      }
    }
    assert inputs[..|inputs|] == inputs;
  }

  /** The mouse loop of the glutin backends: every press is recorded; a
      release removes the first held copy. */
  method TrackAll<T(==)>(held: seq<T>, inputs: seq<Input<T>>) returns (l: Lists<T>)
    ensures l == Tracked(Lists(held, [], []), inputs)
  {
    l := Lists(held, [], []);
    for i := 0 to |inputs|
      invariant l == Tracked(Lists(held, [], []), inputs[..i])
    {
      assert inputs[..i + 1][..i] == inputs[..i];
      var input := inputs[i];
      if input.press {
        l := Lists(l.held + [input.x], l.pressed + [input.x], l.released);
      } else {
        var rest := RemoveFirstIn(l.held, input.x);
        l := Lists(rest, l.pressed, l.released + [input.x]);
      }
    }
    assert inputs[..|inputs|] == inputs;
  }

  /** Winit's `MouseButton`. */
  datatype WinitButton = ButtonLeft | ButtonRight | ButtonMiddle | ButtonOther(n: nat)

  /** The glutin backends' button mapping: winit's other buttons are
      numbered from 0, the window's from 3. */
  function FromWinit(b: WinitButton): (m: Mouse)
    ensures b.ButtonOther? <==> m.Other?
    ensures b.ButtonOther? ==> m.n == b.n + 3
  {
    match b
    case ButtonLeft => Left
    case ButtonRight => Right
    case ButtonMiddle => Middle
    case ButtonOther(n) => Other(n + 3)
  }

  /** Different winit buttons are different window buttons. */
  lemma FromWinitInjective(a: WinitButton, b: WinitButton)
    ensures FromWinit(a) == FromWinit(b) ==> a == b
  {
  }
}
