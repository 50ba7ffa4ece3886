/** The slot: an ordered list of values with an icon, label and info text,
    four optional click callbacks chosen by a fixed priority, a hover flag,
    a drag flag and a label that counts the values. */
module Slots {
  import opened Values
  import opened Input

  /** The slot colour when none is given. */
  const DefSlotColor := RGBA(0.1, 0.1, 0.1, 0.5)

  /** The four click callbacks, in the order `Update` tries them. */
  datatype ClickKind = SpecialRight | Right | SpecialLeft | Left

  /** Whether the special-key variants apply: a key is configured and held. */
  predicate SpecialHeld(specialKey: int, f: Frame) {
    specialKey != 0 && specialKey in f.held
  }

  /** The callback `Update` runs, given whether the pointer is inside and
      which callbacks are set. The first case that matches the input is
      chosen whether or not its callback is set, so an unset callback
      silences the cases below it. */
  function Dispatch(inside: bool, specialKey: int, f: Frame, handlers: set<ClickKind>): (r: Option<ClickKind>)
    ensures !inside ==> r == None
    ensures r.Some? ==> r.value in handlers
    ensures r == Some(SpecialRight) <==>
      inside && SpecialHeld(specialKey, f) && f.justPressedRight && SpecialRight in handlers
    ensures r == Some(Right) <==>
      inside && !SpecialHeld(specialKey, f) && f.justPressedRight && Right in handlers
    ensures r == Some(SpecialLeft) <==>
      inside && SpecialHeld(specialKey, f) && !f.justPressedRight && f.justPressedLeft && SpecialLeft in handlers
    ensures r == Some(Left) <==>
      inside && !SpecialHeld(specialKey, f) && !f.justPressedRight && f.justPressedLeft && Left in handlers
  {
    var special := SpecialHeld(specialKey, f);
    var chosen :=
      if special && f.justPressedRight then Some(SpecialRight)
      else if f.justPressedRight then Some(Right)
      else if special && f.justPressedLeft then Some(SpecialLeft)
      else if f.justPressedLeft then Some(Left)
      else None;
    if inside && chosen.Some? && chosen.value in handlers then chosen else None
  }

  /** A right press outranks a left press in the same frame: with both, no
      left callback runs even when the right one is not set. */
  lemma RightOutranksLeft(inside: bool, specialKey: int, f: Frame, handlers: set<ClickKind>)
    requires f.justPressedRight
    ensures Dispatch(inside, specialKey, f, handlers) != Some(Left)
    ensures Dispatch(inside, specialKey, f, handlers) != Some(SpecialLeft)
  {
  }

  /** What `SlotSwitch` exchanges and `SlotCopy` copies. */
  datatype SlotContent = SlotContent(values: Slice<Value>, icon: Option<Picture>, labelText: string, info: string)

  class Slot {
    var values: Slice<Value>
    /** The picture of the icon sprite (`Icon()`); None for a nil picture. */
    var icon: Option<Picture>
    /** The label text; slot labels have no width, so the text is kept whole. */
    var labelText: string
    var info: string
    /** The count label's text as of the last `Update`. */
    var countLabel: string
    var color: Option<Color>
    var bgSprite: Option<Sprite>
    var sizeW: real
    var sizeH: real
    var drawArea: Rect
    var mousePos: Pos
    var specialKey: int
    /** The callbacks that are set. */
    var handlers: set<ClickKind>
    /** The callbacks run so far, in order. */
    var clicks: seq<ClickKind>
    var hovered: bool
    var dragged: bool

    /** `NewSlot`, with the size already looked up. */
    constructor (mainColor: Option<Color>, w: real, h: real)
      ensures values == NilSlice && icon == None && labelText == "" && info == "" && countLabel == ""
      ensures color == Some(if mainColor.Some? then mainColor.value else DefSlotColor)
      ensures bgSprite == None && sizeW == w && sizeH == h && drawArea == ZeroRect
      ensures specialKey == 0 && handlers == {} && clicks == [] && !hovered && !dragged
    {
      values := NilSlice;
      icon := None;
      labelText, info, countLabel := "", "", "";
      color := Some(if mainColor.Some? then mainColor.value else DefSlotColor);
      bgSprite := None;
      sizeW, sizeH := w, h;
      drawArea := ZeroRect;
      mousePos := Pos(0.0, 0.0);
      specialKey := 0;
      handlers := {};
      clicks := [];
      hovered, dragged := false, false;
    }

    function Content(): SlotContent
      reads this
    {
      SlotContent(values, icon, labelText, info)
    }

    /** The state `Draw` keeps: the area it drew in. */
    method Draw(area: Rect)
      modifies this`drawArea
      ensures drawArea == area
    {
      drawArea := area;
    }

    /** `Update`: remembers the pointer, runs at most one callback, sets the
        hover flag and writes the number of values into the count label. */
    method Update(f: Frame)
      modifies this`mousePos, this`clicks, this`hovered, this`countLabel
      ensures mousePos == f.mouse
      ensures hovered == drawArea.Contains(f.mouse)
      ensures clicks == old(clicks) +
        (match Dispatch(drawArea.Contains(f.mouse), specialKey, f, handlers)
         case Some(k) => [k]
         case None => [])
      ensures countLabel == Decimal(|values.Items()|)
      ensures ParseDecimal(countLabel) == |values.Items()|
    {
      mousePos := f.mouse;
      ghost var fired := Dispatch(drawArea.Contains(f.mouse), specialKey, f, handlers);
      if drawArea.Contains(mousePos) {
        var special := specialKey != 0 && specialKey in f.held;
        if special && f.justPressedRight {
          if SpecialRight in handlers {
            clicks := clicks + [SpecialRight];
          }
          assert fired == (if SpecialRight in handlers then Some(SpecialRight) else None);
        } else if f.justPressedRight {
          if Right in handlers {
            clicks := clicks + [Right];
          }
          assert fired == (if Right in handlers then Some(Right) else None);
        } else if special && f.justPressedLeft {
          if SpecialLeft in handlers {
            clicks := clicks + [SpecialLeft];
          }
          assert fired == (if SpecialLeft in handlers then Some(SpecialLeft) else None);
        } else if f.justPressedLeft {
          if Left in handlers {
            clicks := clicks + [Left];
          }
          assert fired == (if Left in handlers then Some(Left) else None);
        } else {
          assert fired == None;
        }
      }
      hovered := drawArea.Contains(mousePos);
      countLabel := Decimal(|values.Items()|);
      DecimalRoundTrip(|values.Items()|);
    }

    function Values(): Slice<Value>
      reads this
    {
      values
    }

    /** `Pop`: removes and returns the last value (not the first); nil for a
        nil list. Removing the only value clears the whole slot. An empty
        non-nil list would be indexed at -1, hence the precondition. */
    method Pop() returns (v: Value)
      requires values.Slice? ==> |values.elems| > 0
      modifies this`values, this`icon, this`labelText, this`info, this`dragged
      ensures old(values).NilSlice? ==> v == Nil && Content() == old(Content()) && dragged == old(dragged)
      ensures old(values).Slice? ==> v == old(values.elems[|values.elems| - 1])
      ensures old(values).Slice? && |old(values.elems)| > 1 ==>
        values == Slice(old(values.elems[..|values.elems| - 1]))
        && icon == old(icon) && labelText == old(labelText) && info == old(info) && dragged == old(dragged)
      ensures old(values).Slice? && |old(values.elems)| == 1 ==>
        values == NilSlice && icon == None && labelText == "" && info == "" && !dragged
    {
      if values == NilSlice {
        return Nil;
      }
      var lastID := |values.elems| - 1;
      v := values.elems[lastID];
      values := Slice(values.elems[..lastID]);
      if |values.elems| < 1 {
        Clear();
      }
    }

    function Icon(): Option<Picture>
      reads this
    {
      icon
    }

    function Label(): string
      reads this
    {
      labelText
    }

    method Drag(drag: bool)
      modifies this`dragged
      ensures dragged == drag
    {
      dragged := drag;
    }

    function Dragged(): bool
      reads this
    {
      dragged
    }

    method SetColor(c: Option<Color>)
      modifies this`color
      ensures color == c
    {
      color := c;
    }

    method SetIcon(pic: Option<Picture>)
      modifies this`icon
      ensures icon == pic
    {
      icon := pic;
    }

    /** `AddValues`: appends after the existing values, in order. Appending
        nothing to a nil list leaves it nil, as Go's `append` does. */
    method AddValues(vs: seq<Value>)
      modifies this`values
      ensures values.Items() == old(values.Items()) + vs
      ensures values.NilSlice? <==> old(values).NilSlice? && vs == []
    {
      match values
      case NilSlice =>
        if vs != [] {
          values := Slice(vs);
        }
      case Slice(s) =>
        values := Slice(s + vs);
    }

    method SetValues(vs: Slice<Value>)
      modifies this`values
      ensures values == vs
    {
      values := vs;
    }

    method SetLabel(text: string)
      modifies this`labelText
      ensures labelText == text
    {
      labelText := text;
    }

    method SetInfo(text: string)
      modifies this`info
      ensures info == text
    {
      info := text;
    }

    /** `Clear`: no values, no icon picture, empty texts, not dragged. */
    method Clear()
      modifies this`values, this`icon, this`labelText, this`info, this`dragged
      ensures Content() == SlotContent(NilSlice, None, "", "") && !dragged
    {
      SetValues(NilSlice);
      SetIcon(None);
      SetLabel("");
      SetInfo("");
      Drag(false);
    }

    method SetSpecialKey(k: int)
      modifies this`specialKey
      ensures specialKey == k
    {
      specialKey := k;
    }

    /** The four `SetOn...ClickFunc` setters: set or unset one callback. */
    method SetOnClickFunc(kind: ClickKind, present: bool)
      modifies this`handlers
      ensures kind in handlers <==> present
      ensures forall k :: k != kind ==> (k in handlers <==> k in old(handlers))
    {
      if present {
        handlers := handlers + {kind};
      } else {
        handlers := handlers - {kind};
      }
    }

    function Size(): (r: (real, real))
      reads this
      ensures bgSprite.Some? ==> r == (bgSprite.value.frameW, bgSprite.value.frameH)
      ensures bgSprite.None? ==> r == (sizeW, sizeH)
    {
      SpriteSize(bgSprite, sizeW, sizeH)
    }
  }

  /** `SlotSwitch`: the two slots exchange values, icon, info and label;
      drag flags stay where they were. Switching a slot with itself changes
      nothing. */
  method SlotSwitch(a: Slot, b: Slot)
    modifies a`values, a`icon, a`labelText, a`info, b`values, b`icon, b`labelText, b`info
    ensures a.Content() == old(b.Content()) && b.Content() == old(a.Content())
  {
    var aValues, aLabel, aInfo, aIcon := a.Values(), a.labelText, a.info, a.Icon();
    a.SetValues(b.Values());
    a.SetIcon(b.Icon());
    a.SetInfo(b.info);
    a.SetLabel(b.labelText);
    b.SetValues(aValues);
    b.SetIcon(aIcon);
    b.SetInfo(aInfo);
    b.SetLabel(aLabel);
  }

  /** `SlotCopy`: B's content becomes A's; A keeps its own. */
  method SlotCopy(a: Slot, b: Slot)
    modifies b`values, b`icon, b`labelText, b`info
    ensures b.Content() == old(a.Content())
    ensures a.Content() == old(a.Content())
  {
    b.SetValues(a.Values());
    b.SetIcon(a.Icon());
    b.SetInfo(a.info);
    b.SetLabel(a.labelText);
  }
}
