/**
 * The text fields of `src/ui/element/input.rs`. A field's text is split at
 * the cursor into the text before it and the text after it; typing edits
 * the end of the text before the cursor, and moving the cursor moves
 * characters from one side to the other.
 *
 * The fields, a global map behind a mutex, are an object. The selection
 * time and the cursor blink are not modelled; strings are sequences of
 * characters, so a length is a count of characters.
 */
module UiInput {
  import opened Wrappers
  import UiElement

  const I32Min: int := -0x8000_0000
  const I32Max: int := 0x7FFF_FFFF

  /** `TextField`: the text before and after the cursor, and the cursor's
      index. */
  datatype TextField = TextField(preCursorText: string, postCursorText: string, cursorIndex: int)

  /** `TextField::text`. */
  function Text(f: TextField): (t: string)
    ensures |t| == |f.preCursorText| + |f.postCursorText|
    ensures t[..|f.preCursorText|] == f.preCursorText && t[|f.preCursorText|..] == f.postCursorText
  {
    f.preCursorText + f.postCursorText
  }

  /** The cursor index counts the characters before the cursor. */
  predicate CursorAtSplit(f: TextField)
  {
    f.cursorIndex == |f.preCursorText|
  }

  /** The field after moving the cursor right by up to `n` characters: as
      many as there are after the cursor, at most `n`. */
  function MovedRight(f: TextField, n: nat): (r: TextField)
  {
    var k := if n < |f.postCursorText| then n else |f.postCursorText|;
    TextField(f.preCursorText + f.postCursorText[..k], f.postCursorText[k..], f.cursorIndex + k)
  }

  /** The field after moving the cursor left by up to `n` characters. */
  function MovedLeft(f: TextField, n: nat): (r: TextField)
  {
    var k := if n < |f.preCursorText| then n else |f.preCursorText|;
    var split := |f.preCursorText| - k;
    TextField(f.preCursorText[..split], f.preCursorText[split..] + f.postCursorText, f.cursorIndex - k)
  }

  /** `move_cursor` on one field: right for a positive modifier, left for
      a negative one. */
  function Moved(f: TextField, modifier: int): TextField
  {
    if modifier > 0 then MovedRight(f, modifier) else if modifier < 0 then MovedLeft(f, -modifier) else f
  }

  /** The right-moving loop of `move_cursor`: up to `n` times, the first
      character after the cursor moves before it. */
  method MoveRight(f: TextField, n: nat) returns (field: TextField)
    ensures field == MovedRight(f, n)
  {
    field := f;
    var moved := 0;
    while moved < n
      invariant 0 <= moved <= n
      invariant field == MovedRight(f, moved)
    {
      if |field.postCursorText| > 0 {
        assert field.postCursorText == f.postCursorText[moved..];
        assert f.postCursorText[..moved + 1] == f.postCursorText[..moved] + [f.postCursorText[moved]];
        var c := field.postCursorText[0];
        field := field.(preCursorText := field.preCursorText + [c], cursorIndex := field.cursorIndex + 1);
        field := field.(postCursorText := field.postCursorText[1..]);
      } else {
        break;
      }
      moved := moved + 1;
    }
  }

  /** The left-moving loop of `move_cursor`: up to `n` times, the last
      character before the cursor moves after it. */
  method MoveLeft(f: TextField, n: nat) returns (field: TextField)
    ensures field == MovedLeft(f, n)
  {
    field := f;
    var moved := 0;
    while moved < n
      invariant 0 <= moved <= n
      invariant field == MovedLeft(f, moved)
    {
      if |field.preCursorText| > 0 {
        var split := |f.preCursorText| - moved;
        assert field.preCursorText == f.preCursorText[..split];
        assert f.preCursorText[split - 1..] == [f.preCursorText[split - 1]] + f.preCursorText[split..];
        var c := field.preCursorText[|field.preCursorText| - 1];
        field := field.(postCursorText := [c] + field.postCursorText, cursorIndex := field.cursorIndex - 1);
        field := field.(preCursorText := field.preCursorText[..|field.preCursorText| - 1]);
      } else {
        break;
      }
      moved := moved + 1;
    }
  }

  /** Moving the cursor never changes the text, and keeps the cursor index
      counting the characters before the cursor. */
  lemma MovedKeepsText(f: TextField, modifier: int)
    ensures Text(Moved(f, modifier)) == Text(f)
    ensures CursorAtSplit(f) ==> CursorAtSplit(Moved(f, modifier))
  {
    var r := Moved(f, modifier);
    if modifier > 0 {
      var k := if modifier < |f.postCursorText| then modifier else |f.postCursorText|;
      assert f.postCursorText == f.postCursorText[..k] + f.postCursorText[k..];
    } else if modifier < 0 {
      var k := if -modifier < |f.preCursorText| then -modifier else |f.preCursorText|;
      var split := |f.preCursorText| - k;
      assert f.preCursorText == f.preCursorText[..split] + f.preCursorText[split..];
    }
  }

  /** Moving right by `n` and back left by as much as moved gives the field
      back. */
  lemma MoveRightThenLeft(f: TextField, n: nat)
    requires n <= |f.postCursorText|
    ensures MovedLeft(MovedRight(f, n), n) == f
  {
    var r := MovedRight(f, n);
    assert r.preCursorText[..|f.preCursorText|] == f.preCursorText;
    assert r.preCursorText[|f.preCursorText|..] + r.postCursorText == f.postCursorText;
  }

  /** `insert_char`: a printable character is appended before the cursor
      and the cursor moves on, though not past the text before it; a
      backspace with text before the cursor removes its last character and
      moves the cursor back; anything else does nothing. */
  function InsertChar(f: TextField, c: char): (r: TextField)
    ensures r.postCursorText == f.postCursorText
  {
    if !UiElement.IsControl(c) then
      var pre := f.preCursorText + [c];
      var cursor := f.cursorIndex + 1;
      f.(preCursorText := pre, cursorIndex := if cursor < |pre| then cursor else |pre|)
    else if c == UiElement.Backspace && |f.preCursorText| > 0 then
      f.(preCursorText := f.preCursorText[..|f.preCursorText| - 1], cursorIndex := f.cursorIndex - 1)
    else f
  }

  /** Typing keeps the cursor index counting the characters before the
      cursor, so a backspace never takes it below zero; a printable
      character followed by a backspace changes nothing. */
  lemma InsertCharSpec(f: TextField, c: char)
    requires CursorAtSplit(f)
    ensures CursorAtSplit(InsertChar(f, c)) && InsertChar(f, c).cursorIndex >= 0
    ensures !UiElement.IsControl(c) ==> InsertChar(InsertChar(f, c), UiElement.Backspace) == f
    ensures !UiElement.IsControl(c) ==> Text(InsertChar(f, c)) == f.preCursorText + [c] + f.postCursorText
  {
    if !UiElement.IsControl(c) {
      assert (f.preCursorText + [c])[..|f.preCursorText|] == f.preCursorText;
    }
  }

  /** `insert_input_str` on one field: `insert_char` for each character in
      order. */
  function InsertAll(f: TextField, s: string): TextField
    decreases |s|
  {
    if |s| == 0 then f else InsertAll(InsertChar(f, s[0]), s[1..])
  }

  /** Typing a string in two parts is typing it at once. */
  lemma {:induction false} InsertAllAppend(f: TextField, s: string, t: string)
    ensures InsertAll(f, s + t) == InsertAll(InsertAll(f, s), t)
    decreases |s|
  {
    if |s| == 0 {
      assert s + t == t;
    } else {
      assert (s + t)[0] == s[0] && (s + t)[1..] == s[1..] + t;
      InsertAllAppend(InsertChar(f, s[0]), s[1..], t);
    }
  }

  /** Typing a string never touches the text after the cursor, and keeps
      the cursor index counting the characters before the cursor. */
  lemma {:induction false} InsertAllSpec(f: TextField, s: string)
    requires CursorAtSplit(f)
    ensures InsertAll(f, s).postCursorText == f.postCursorText
    ensures CursorAtSplit(InsertAll(f, s))
    decreases |s|
  {
    if |s| > 0 {
      InsertCharSpec(f, s[0]);
      InsertAllSpec(InsertChar(f, s[0]), s[1..]);
    }
  }

  /** A new field: the default text before the cursor, nothing after. */
  function NewField(defaultText: string): (f: TextField)
    ensures Text(f) == defaultText && CursorAtSplit(f)
  {
    TextField(defaultText, "", |defaultText|)
  }

  /** `TEXT_FIELDS`: the fields by element id. */
  class TextFields {
    var fields: map<nat, TextField>

    ghost predicate Valid()
      reads this
    {
      forall id | id in fields :: CursorAtSplit(fields[id])
    }

    constructor ()
      ensures Valid() && fields == map[]
    {
      fields := map[];
    }

    /** `move_cursor`: the focused field, if there is one, has its cursor
        moved by `modifier` characters, as far as the text allows. */
    method MoveCursor(focusedElement: Option<nat>, modifier: int)
      requires Valid()
      requires I32Min < modifier <= I32Max
      modifies this
      ensures Valid()
      ensures if modifier != 0 && focusedElement.Some? && focusedElement.value in old(fields) then
          fields == old(fields)[focusedElement.value := Moved(old(fields)[focusedElement.value], modifier)]
        else fields == old(fields)
    {
      if modifier == 0 {
        return;
      }
      if focusedElement.Some? && focusedElement.value in fields {
        var id := focusedElement.value;
        var field := fields[id];
        var moved: TextField;
        if modifier > 0 {
          moved := MoveRight(field, modifier);
        } else {
          moved := MoveLeft(field, -modifier);
        }
        MovedKeepsText(field, modifier);
        fields := fields[id := moved];
      }
    }

    /** `insert_input`: a typed character goes to the field with the
        focused id, if there is one. */
    method InsertInput(focusedId: nat, input: char)
      requires Valid()
      modifies this
      ensures Valid()
      ensures focusedId in old(fields) ==> fields == old(fields)[focusedId := InsertChar(old(fields)[focusedId], input)]
      ensures focusedId !in old(fields) ==> fields == old(fields)
    {
      if focusedId in fields {
        InsertCharSpec(fields[focusedId], input);
        fields := fields[focusedId := InsertChar(fields[focusedId], input)];
      }
    }

    /** `insert_input_str`: each character of `input` in order goes to the
        field with the focused id, if there is one. */
    method InsertInputStr(focusedId: nat, input: string)
      requires Valid()
      modifies this
      ensures Valid()
      ensures focusedId in old(fields) ==> fields == old(fields)[focusedId := InsertAll(old(fields)[focusedId], input)]
      ensures focusedId !in old(fields) ==> fields == old(fields)
    {
      if focusedId in fields {
        var field := fields[focusedId];
        ghost var start := field;
        for i := 0 to |input|
          invariant InsertAll(start, input) == InsertAll(field, input[i..])
          invariant CursorAtSplit(field)
          invariant fields == old(fields)
        {
          assert input[i..][0] == input[i] && input[i..][1..] == input[i + 1..];
          InsertCharSpec(field, input[i]);
          field := InsertChar(field, input[i]);
        }
        assert input[|input|..] == [];
        fields := fields[focusedId := field];
      }
    }

    /** `input`: a text field at `rect`, new with the default text the
        first time its id is seen and kept after that; a click inside it
        takes the focus. The result is its text. */
    method Input(state: UiElement.UiState, identifier: string, defaultText: string, rect: UiElement.Rect) returns (text: string)
      requires Valid()
      modifies this, state
      ensures Valid()
      ensures var id := state.elementHash(identifier);
        fields == (if id in old(fields) then old(fields) else old(fields)[id := NewField(defaultText)]) &&
        text == Text(fields[id]) &&
        state.focusedElement ==
          (if old(state.mouse).clicked && UiElement.IsPointInside(rect, old(state.mouse).x, old(state.mouse).y) then Some(id)
           else old(state.focusedElement)) &&
        state.elements == old(state.elements)[id := UiElement.Element(identifier, UiElement.InputField, rect)] &&
        state.lastElement == Some(UiElement.Element(identifier, UiElement.InputField, rect)) &&
        state.mouse == old(state.mouse) && state.pressedElement == old(state.pressedElement) &&
        state.hovering == old(state.hovering)
    {
      var element := UiElement.Element(identifier, UiElement.InputField, rect);
      var id := state.elementHash(identifier);
      if id !in fields {
        fields := fields[id := NewField(defaultText)];
      }
      var clicked := state.mouse.clicked;
      if clicked && UiElement.IsPointInside(rect, state.mouse.x, state.mouse.y) {
        state.focusedElement := Some(id);
      }
      text := Text(fields[id]);
      state.InsertElement(element);
    }
  }
}
