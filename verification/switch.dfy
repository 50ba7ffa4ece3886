/** The value switch: a list of (view, value) pairs, a wrap-around index
    moved by a previous and a next button, and the `onChange` notifications
    the buttons raise. */
module Switches {
  import opened Values
  import opened Input
  import Cyclic
  import Buttons
  import Audio
  import TextLayout

  datatype SwitchValue = SwitchValue(view: Value, value: Value)

  /** One `onChange` call: the value at the index before the click and the
      value at the index after it (None where Go passes nil). */
  datatype Change = Change(before: Option<SwitchValue>, after: Option<SwitchValue>)

  /** `Value`/`FindValue`: the entry at `i`, or None out of range. */
  function Lookup(values: seq<SwitchValue>, i: int): (r: Option<SwitchValue>)
    ensures r.Some? <==> 0 <= i < |values|
    ensures r.Some? ==> r.value == values[i]
  {
    if i >= |values| || i < 0 then None else Some(values[i])
  }

  /** The text a non-picture view is labelled with: the string itself, or
      the empty string for any other kind of view. */
  function ViewLabel(v: Value): string {
    if v.Str? then v.s else ""
  }

  /** The `onChange` calls a run of next (true) and previous (false) button
      clicks makes, starting from `index`. */
  function ChangeTrace(values: seq<SwitchValue>, index: int, steps: seq<bool>): seq<Change>
    decreases |steps|
  {
    if steps == [] then []
    else
      var j := Cyclic.Wrap(if steps[0] then index + 1 else index - 1, |values|);
      [Change(Lookup(values, index), Lookup(values, j))] + ChangeTrace(values, j, steps[1..])
  }

  /** Exactly one notification per click. */
  lemma {:induction false} ChangeTraceOnePerClick(values: seq<SwitchValue>, index: int, steps: seq<bool>)
    ensures |ChangeTrace(values, index, steps)| == |steps|
    decreases |steps|
  {
    if steps != [] {
      var j := Cyclic.Wrap(if steps[0] then index + 1 else index - 1, |values|);
      ChangeTraceOnePerClick(values, j, steps[1..]);
    }
  }

  /** Notifications chain: each one's old value is the previous one's new
      value, and the last new value is the value at the index the walk ends
      on. */
  lemma {:induction false} ChangeTraceChains(values: seq<SwitchValue>, index: int, steps: seq<bool>)
    ensures var t := ChangeTrace(values, index, steps);
      forall k :: 0 < k < |t| ==> t[k].before == t[k - 1].after
    ensures var t := ChangeTrace(values, index, steps);
      t != [] ==> t[|t| - 1].after == Lookup(values, Cyclic.Walk(index, steps, |values|))
    decreases |steps|
  {
    if steps != [] {
      var j := Cyclic.Wrap(if steps[0] then index + 1 else index - 1, |values|);
      ChangeTraceChains(values, j, steps[1..]);
      var rest := ChangeTrace(values, j, steps[1..]);
      var t := ChangeTrace(values, index, steps);
      assert t == [Change(Lookup(values, index), Lookup(values, j))] + rest;
      if rest != [] {
        ChangeTraceOnePerClick(values, j, steps[1..]);
        assert rest[0].before == Lookup(values, j);
      }
    }
  }

  /** The notifications of two runs of clicks, one after the other, are
      those of the concatenated run. */
  lemma {:induction false} ChangeTraceAppend(values: seq<SwitchValue>, index: int, s1: seq<bool>, s2: seq<bool>)
    ensures ChangeTrace(values, index, s1 + s2)
         == ChangeTrace(values, index, s1) + ChangeTrace(values, Cyclic.Walk(index, s1, |values|), s2)
    decreases |s1|
  {
    if s1 == [] {
      assert s1 + s2 == s2;
    } else {
      var j := Cyclic.Wrap(if s1[0] then index + 1 else index - 1, |values|);
      assert (s1 + s2)[1..] == s1[1..] + s2;
      ChangeTraceAppend(values, j, s1[1..], s2);
    }
  }

  /** The index and notifications after one run of clicks followed by
      another are those of the concatenated run. */
  lemma ClicksCompose(values: seq<SwitchValue>, notify: bool, i0: int, c0: seq<Change>,
                      i1: int, c1: seq<Change>, i2: int, c2: seq<Change>, s1: seq<bool>, s2: seq<bool>)
    requires i1 == Cyclic.Walk(i0, s1, |values|) && c1 == c0 + (if notify then ChangeTrace(values, i0, s1) else [])
    requires i2 == Cyclic.Walk(i1, s2, |values|) && c2 == c1 + (if notify then ChangeTrace(values, i1, s2) else [])
    ensures i2 == Cyclic.Walk(i0, s1 + s2, |values|)
    ensures c2 == c0 + (if notify then ChangeTrace(values, i0, s1 + s2) else [])
  {
    Cyclic.WalkAppend(i0, s1, s2, |values|);
    ChangeTraceAppend(values, i0, s1, s2);
  }

  /** Over a non-empty list every notification carries a current value. */
  lemma {:induction false} ChangeTraceAfterIsSome(values: seq<SwitchValue>, index: int, steps: seq<bool>)
    requires values != []
    ensures forall c :: c in ChangeTrace(values, index, steps) ==> c.after.Some?
    decreases |steps|
  {
    if steps != [] {
      var j := Cyclic.Wrap(if steps[0] then index + 1 else index - 1, |values|);
      ChangeTraceAfterIsSome(values, j, steps[1..]);
    }
  }

  /** `SetIntValues(min, max)` as written: the loop writes `values[i]` for
      `i` from `min` into a slice of length `max - min`. `ok` is false where
      Go panics: a negative length, or an index out of range, which happens
      for every non-empty range that does not start at 0. */
  method IntValuesAsWritten(min: int, max: int) returns (values: seq<SwitchValue>, ok: bool)
    ensures ok <==> min == max || (min == 0 && max > 0)
    ensures ok ==> |values| == max - min
    ensures ok ==> forall k :: 0 <= k < |values| ==> values[k] == SwitchValue(Int(min + k), Int(min + k))
  {
    if max - min < 0 {
      return [], false;
    }
    var a := new SwitchValue[max - min];
    for i := min to max
      invariant i > min ==> 0 <= min && i - 1 < max - min
      invariant forall j :: min <= j < i ==> a[j] == SwitchValue(Int(j), Int(j))
    {
      if i < 0 || i >= a.Length {
        return [], false;
      }
      a[i] := SwitchValue(Int(i), Int(i));
    }
    values, ok := a[..], true;
  }

  class Switch {
    const prevButton: Buttons.Button
    const nextButton: Buttons.Button
    const valueText: TextLayout.Text
    var valueSprite: Option<Picture>
    var bgSprite: Option<Sprite>
    var sizeW: real
    var sizeH: real
    var color: Option<Color>
    var drawArea: Rect
    var index: int
    var focused: bool
    var disabled: bool
    var hovered: bool
    var values: seq<SwitchValue>
    /** Whether an `onChange` callback is set. */
    var hasOnChange: bool
    /** The `onChange` calls made so far. */
    var changes: seq<Change>

    /** The two buttons are distinct, never focused, call back into the
        switch, and share its activity. */
    ghost predicate Valid()
      reads this, prevButton, nextButton
    {
      prevButton != nextButton
      && prevButton.hasOnClick && nextButton.hasOnClick
      && !prevButton.focused && !nextButton.focused
      && prevButton.disabled == disabled && nextButton.disabled == disabled
    }

    /** The view shows the current value: its picture, or its label broken
        to the value text's width. */
    ghost predicate ShowsCurrent()
      reads this, valueText
    {
      0 <= index < |values|
      && match values[index].view
         case Pic(p) => valueSprite == Some(p)
         case _ => valueText.content == TextLayout.Concat(TextLayout.BreakLine(
                     ViewLabel(values[index].view), valueText.metrics.width, valueText.width))
    }

    /** `NewSwitch`, with the sizes already looked up, the font measurement
        and the toolkit's click sound passed in. The buttons take the
        secondary colour, red when there is none. */
    constructor (mainColor: Option<Color>, secColor: Option<Color>, w: real, h: real,
                 background: Option<Sprite>, buttonW: real, buttonH: real,
                 metrics: TextLayout.Metrics, sound: Option<Buffer>)
      ensures Valid()
      ensures fresh(prevButton) && fresh(nextButton) && fresh(valueText)
      ensures index == 0 && values == [] && changes == [] && !hasOnChange
      ensures !focused && !disabled && !hovered && drawArea == ZeroRect
      ensures valueSprite == None && valueText.content == ""
      ensures valueText.width == (if background.Some? then background.value.frameW else w)
      ensures prevButton.color == nextButton.color == Some(if secColor.Some? then secColor.value else Red)
    {
      var buttonColor := if secColor.Some? then secColor.value else Red;
      var prev := new Buttons.Button(Some(buttonColor), buttonW, buttonH, None, sound);
      prev.SetOnClickFunc(true);
      var next := new Buttons.Button(Some(buttonColor), buttonW, buttonH, None, sound);
      next.SetOnClickFunc(true);
      prevButton, nextButton := prev, next;
      var textWidth := if background.Some? then background.value.frameW else w;
      valueText := new TextLayout.Text(textWidth, metrics);
      valueSprite := None;
      bgSprite := background;
      sizeW, sizeH := w, h;
      color := mainColor;
      drawArea := ZeroRect;
      index := 0;
      focused, disabled, hovered := false, false, false;
      values := [];
      hasOnChange := false;
      changes := [];
    }

    /** The state `Draw` keeps: the area it drew in, and the areas its
        buttons were drawn in (the previous button, then the next one; their
        placement beside the value view is computed by layout helpers that
        are not part of this model). */
    method Draw(area: Rect, prevArea: Rect, nextArea: Rect)
      modifies this`drawArea, prevButton`drawArea, nextButton`drawArea
      ensures drawArea == area && nextButton.drawArea == nextArea
      ensures prevButton != nextButton ==> prevButton.drawArea == prevArea
    {
      drawArea := area;
      prevButton.Draw(prevArea);
      nextButton.Draw(nextArea);
    }

    /** `Update`: nothing while disabled; otherwise the hover flag and one
        frame for each button, whose clicks move the index and notify. */
    method Update(f: Frame, audio: Audio.AudioPlayer?)
      requires Valid()
      requires values == [] || 0 <= index < |values|
      modifies this`hovered, this`index, this`valueSprite, this`changes, valueText`content
      modifies prevButton`pressed, prevButton`hovered, nextButton`pressed, nextButton`hovered
      modifies (if audio == null then {} else {audio})`control
      ensures Valid()
      ensures disabled ==> hovered == old(hovered) && index == old(index) && changes == old(changes)
      ensures disabled ==> valueSprite == old(valueSprite) && valueText.content == old(valueText.content)
      ensures !disabled ==> hovered == drawArea.Contains(f.mouse)
      ensures Buttons.Stepped(prevButton, f) && Buttons.Stepped(nextButton, f)
      ensures !disabled ==>
        var steps := (if Buttons.ReleaseClick(old(prevButton.pressed), prevButton.drawArea.Contains(f.mouse), f) then [false] else [])
                     + (if Buttons.ReleaseClick(old(nextButton.pressed), nextButton.drawArea.Contains(f.mouse), f) then [true] else []);
        && index == Cyclic.Walk(old(index), steps, |values|)
        && changes == old(changes) + (if hasOnChange then ChangeTrace(values, old(index), steps) else [])
        && (steps == [] || values == [] ==> valueSprite == old(valueSprite) && valueText.content == old(valueText.content))
        && (steps != [] && values != [] ==> ShowsCurrent())
    {
      if disabled {
        return;
      }
      hovered := drawArea.Contains(f.mouse);
      ghost var nextPressed := nextButton.pressed;
      var p := ButtonFrame(prevButton, false, f, audio);
      ghost var i1, c1 := index, changes;
      assert nextButton.pressed == nextPressed;
      var n := ButtonFrame(nextButton, true, f, audio);
      ClicksCompose(values, hasOnChange, old(index), old(changes), i1, c1, index, changes,
                    if p then [false] else [], if n then [true] else []);
    }

    /** One button's frame inside the switch's `Update`: the button updates
        and, on a click, its handler moves the index by one step. */
    method ButtonFrame(b: Buttons.Button, forward: bool, f: Frame, audio: Audio.AudioPlayer?) returns (clicked: bool)
      requires Valid() && b == (if forward then nextButton else prevButton) && !disabled
      requires values == [] || 0 <= index < |values|
      modifies b`pressed, b`hovered, this`index, this`valueSprite, this`changes, valueText`content
      modifies (if audio == null then {} else {audio})`control
      ensures Valid()
      ensures clicked == Buttons.ReleaseClick(old(b.pressed), b.drawArea.Contains(f.mouse), f)
      ensures Buttons.Stepped(b, f)
      ensures values == [] || 0 <= index < |values|
      ensures index == Cyclic.Walk(old(index), if clicked then [forward] else [], |values|)
      ensures changes == old(changes) + (if hasOnChange then ChangeTrace(values, old(index), if clicked then [forward] else []) else [])
      ensures !clicked || values == [] ==> valueSprite == old(valueSprite) && valueText.content == old(valueText.content)
      ensures clicked && values != [] ==> ShowsCurrent()
    {
      clicked := Buttons.ReleaseClick(b.pressed, b.drawArea.Contains(f.mouse), f);
      var clicks := b.Update(f, audio);
      if clicks > 0 {
        if forward {
          OnNextButtonClicked();
        } else {
          OnPrevButtonClicked();
        }
        assert [forward][1..] == [];
      }
    }

    /** `updateValueView`: a picture view becomes the value sprite, anything
        else sets the value text to its label. The sprite is never unset, so
        after a picture value it keeps being drawn in place of later labels.
        A non-empty list with the index out of range would dereference nil. */
    method UpdateValueView()
      requires values == [] || 0 <= index < |values|
      modifies this`valueSprite, valueText`content
      ensures values == [] ==> valueSprite == old(valueSprite) && valueText.content == old(valueText.content)
      ensures values != [] ==> ShowsCurrent()
      ensures values != [] && values[index].view.Pic? ==> valueText.content == old(valueText.content)
      ensures values != [] && !values[index].view.Pic? ==> valueSprite == old(valueSprite)
    {
      if |values| < 1 {
        return;
      }
      match values[index].view
      case Pic(p) =>
        valueSprite := Some(p);
      case _ =>
        var caption := ViewLabel(values[index].view);
        valueText.SetText(caption);
    }

    /** `SetValues`: the list is replaced and the index kept. */
    method SetValues(vs: seq<SwitchValue>)
      requires vs == [] || 0 <= index < |vs|
      modifies this`values, this`valueSprite, valueText`content
      ensures values == vs
      ensures vs == [] ==> valueSprite == old(valueSprite) && valueText.content == old(valueText.content)
      ensures vs != [] ==> ShowsCurrent()
    {
      values := vs;
      UpdateValueView();
    }

    /** `SetIntValues(min, max)` as intended: the values `(i, i)` for every
        `i` from `min` up to `max`, in order. */
    method SetIntValues(min: int, max: int)
      requires min <= max
      requires min == max || 0 <= index < max - min
      modifies this`values, this`valueSprite, valueText`content
      ensures |values| == max - min
      ensures forall k :: 0 <= k < |values| ==> values[k] == SwitchValue(Int(min + k), Int(min + k))
      ensures values != [] ==> ShowsCurrent()
    {
      var a := new SwitchValue[max - min];
      for i := min to max
        invariant forall j :: min <= j < i ==> a[j - min] == SwitchValue(Int(j), Int(j))
      {
        a[i - min] := SwitchValue(Int(i), Int(i));
      }
      SetValues(a[..]);
    }

    /** `SetIndex`: the wrap-around rule, then the view follows. */
    method SetIndex(i: int)
      modifies this`index, this`valueSprite, valueText`content
      ensures index == Cyclic.Wrap(i, |values|)
      ensures values != [] ==> 0 <= index < |values| && ShowsCurrent()
      ensures values == [] ==> valueSprite == old(valueSprite) && valueText.content == old(valueText.content)
    {
      if i > |values| - 1 {
        index := 0;
      } else if i < 0 {
        index := |values| - 1;
      } else {
        index := i;
      }
      UpdateValueView();
    }

    /** `Reset`: back to the first value. */
    method Reset()
      modifies this`index, this`valueSprite, valueText`content
      ensures index == 0
      ensures values != [] ==> ShowsCurrent()
      ensures values == [] ==> valueSprite == old(valueSprite) && valueText.content == old(valueText.content)
    {
      SetIndex(0);
    }

    /** The next button's handler: one step forward, one notification. */
    method OnNextButtonClicked()
      modifies this`index, this`valueSprite, this`changes, valueText`content
      ensures index == Cyclic.Wrap(old(index) + 1, |values|)
      ensures changes == old(changes) + (if hasOnChange then ChangeTrace(values, old(index), [true]) else [])
      ensures values != [] ==> ShowsCurrent()
      ensures values == [] ==> valueSprite == old(valueSprite) && valueText.content == old(valueText.content)
    {
      var oldIndex := index;
      SetIndex(index + 1);
      if hasOnChange {
        var oldValue := FindValue(oldIndex);
        changes := changes + [Change(oldValue, Value())];
      }
    }

    /** The previous button's handler: one step back, one notification. */
    method OnPrevButtonClicked()
      modifies this`index, this`valueSprite, this`changes, valueText`content
      ensures index == Cyclic.Wrap(old(index) - 1, |values|)
      ensures changes == old(changes) + (if hasOnChange then ChangeTrace(values, old(index), [false]) else [])
      ensures values != [] ==> ShowsCurrent()
      ensures values == [] ==> valueSprite == old(valueSprite) && valueText.content == old(valueText.content)
    {
      var oldIndex := index;
      SetIndex(index - 1);
      if hasOnChange {
        changes := changes + [Change(FindValue(oldIndex), Value())];
      }
    }

    method SetOnChangeFunc(present: bool)
      modifies this`hasOnChange
      ensures hasOnChange == present
    {
      hasOnChange := present;
    }

    /** `Value`: the current entry, None when the index is out of range. */
    function Value(): (r: Option<SwitchValue>)
      reads this
      ensures r.Some? <==> 0 <= index < |values|
      ensures r.Some? ==> r.value == values[index]
    {
      Lookup(values, index)
    }

    function FindValue(i: int): (r: Option<SwitchValue>)
      reads this
      ensures r.Some? <==> 0 <= i < |values|
      ensures r.Some? ==> r.value == values[i]
    {
      Lookup(values, i)
    }

    /** `Find`: the first index whose value (never the view) equals `v`,
        or -1. */
    method Find(v: Value) returns (i: int)
      ensures -1 <= i < |values|
      ensures i >= 0 ==> values[i].value == v && forall j :: 0 <= j < i ==> values[j].value != v
      ensures i == -1 ==> forall j :: 0 <= j < |values| ==> values[j].value != v
    {
      for k := 0 to |values|
        invariant forall j :: 0 <= j < k ==> values[j].value != v
      {
        if v == values[k].value {
          return k;
        }
      }
      return -1;
    }

    method Focus(focus: bool)
      modifies this`focused
      ensures focused == focus
    {
      focused := focus;
    }

    /** `Active`: the switch and both buttons together. */
    method Active(active: bool)
      requires Valid()
      modifies this`disabled, prevButton`disabled, nextButton`disabled
      ensures Valid()
      ensures disabled == !active && prevButton.disabled == !active && nextButton.disabled == !active
    {
      prevButton.Active(active);
      nextButton.Active(active);
      disabled := !active;
    }

    method SetBackground(s: Option<Sprite>)
      modifies this`bgSprite, this`color
      ensures bgSprite == s && color == None
    {
      bgSprite := s;
      color := None;
    }

    method SetColor(c: Option<Color>)
      modifies this`color
      ensures color == c
    {
      color := c;
    }

    function Size(): (r: (real, real))
      reads this
      ensures bgSprite.Some? ==> r == (bgSprite.value.frameW, bgSprite.value.frameH)
      ensures bgSprite.None? ==> r == (sizeW, sizeH)
    {
      SpriteSize(bgSprite, sizeW, sizeH)
    }
  }
}
