/** The one-line text edit field: focus follows left clicks, and while
    focused Backspace drops the last byte and typed bytes are appended. */
module Textedits {
  import opened Values
  import opened Input

  /** The text after one focused frame: Backspace first (dropping the final
      byte, if any), then the typed bytes. */
  function Edited(text: seq<byte>, backspace: bool, typed: seq<byte>): (r: seq<byte>)
    ensures backspace && text != [] ==> r == text[..|text| - 1] + typed
    ensures !(backspace && text != []) ==> r == text + typed
    ensures |r| == |text| - (if backspace && text != [] then 1 else 0) + |typed|
  {
    (if backspace && |text| > 0 then text[..|text| - 1] else text) + typed
  }

  /** Backspace and retyping the byte it removed give the text back. */
  lemma BackspaceThenRetype(text: seq<byte>)
    requires text != []
    ensures Edited(text, true, [text[|text| - 1]]) == text
  {
    assert text[..|text| - 1] + [text[|text| - 1]] == text;
  }

  class Textedit {
    var sizeW: real
    var sizeH: real
    var drawArea: Rect
    var color: Option<Color>
    const colorFocus: Color
    var text: seq<byte>
    /** What the input line shows, as of the last `Update`. */
    var shown: seq<byte>
    var focused: bool
    var disabled: bool

    /** `NewTextedit`. */
    constructor (mainColor: Option<Color>, w: real, h: real)
      ensures text == [] && shown == [] && !focused && !disabled
      ensures color == mainColor && colorFocus == Crimson
      ensures sizeW == w && sizeH == h && drawArea == ZeroRect
    {
      sizeW, sizeH := w, h;
      drawArea := ZeroRect;
      color := mainColor;
      colorFocus := Crimson;
      text, shown := [], [];
      focused, disabled := false, false;
    }

    /** The state `Draw` keeps: the area it drew in. */
    method Draw(area: Rect)
      modifies this`drawArea
      ensures drawArea == area
    {
      drawArea := area;
    }

    /** The background colour `Draw` uses. */
    function Background(): (c: Option<Color>)
      reads this
      ensures focused ==> c == Some(colorFocus)
      ensures !focused ==> c == color
    {
      if focused then Some(colorFocus) else color
    }

    /** `Update`: nothing while disabled. A left press moves focus in or
        out; a focused field then edits its text; the input line then shows
        the text. */
    method Update(f: Frame)
      modifies this`focused, this`text, this`shown
      ensures disabled ==> focused == old(focused) && text == old(text) && shown == old(shown)
      ensures !disabled ==> focused == (if f.justPressedLeft then drawArea.Contains(f.mouse) else old(focused))
      ensures !disabled && focused ==> text == Edited(old(text), f.backspace, f.typed)
      ensures !disabled && !focused ==> text == old(text)
      ensures !disabled ==> shown == text
    {
      if disabled {
        return;
      }
      if f.justPressedLeft {
        if drawArea.Contains(f.mouse) {
          Focus(true);
        } else {
          Focus(false);
        }
      }
      if focused {
        if f.backspace {
          if |text| > 0 {
            SetText(text[..|text| - 1]);
          }
        }
        SetText(text + f.typed);
      }
      shown := text;
    }

    method Focus(focus: bool)
      modifies this`focused
      ensures focused == focus
    {
      focused := focus;
    }

    method Active(active: bool)
      modifies this`disabled
      ensures disabled == !active
    {
      disabled := !active;
    }

    method Clear()
      modifies this`text
      ensures text == [] && Text() == []
    {
      text := [];
    }

    function Text(): seq<byte>
      reads this
    {
      text
    }

    /** `SetText`: `Text` then returns exactly what was set. */
    method SetText(t: seq<byte>)
      modifies this`text
      ensures text == t && Text() == t
    {
      text := t;
    }

    method SetSize(w: real, h: real)
      modifies this`sizeW, this`sizeH
      ensures sizeW == w && sizeH == h
    {
      sizeW, sizeH := w, h;
    }
  }
}
