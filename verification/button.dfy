/** The push button: a pressed/hovered state machine driven by the left mouse
    button and the Enter key, and the background colour it is drawn with. */
module Buttons {
  import opened Values
  import opened Input
  import Audio

  const ButtonPushColor := Grey
  const ButtonHoverColor := Crimson

  /** Whether a frame completes a click: the left button is released with the
      pointer inside, and the button was pressed before this frame or by a
      press inside during it. */
  predicate ReleaseClick(pressed: bool, inside: bool, f: Frame) {
    f.justReleasedLeft && inside && (pressed || f.justPressedLeft)
  }

  /** The `pressed` flag after a frame. */
  function PressedAfter(pressed: bool, inside: bool, f: Frame): (p: bool)
    ensures f.justReleasedLeft ==> !p
    ensures !f.justReleasedLeft ==> (p <==> pressed || (f.justPressedLeft && inside))
  {
    if f.justReleasedLeft then false else pressed || (f.justPressedLeft && inside)
  }

  /** Button `b` went, from the previous state to this one, through one
      frame `f` of `Update`: an enabled button follows the pointer and
      `PressedAfter`, a disabled one keeps its flags. Owners state this of
      their buttons so that frames chain. */
  twostate predicate Stepped(b: Button, f: Frame)
    reads b`pressed, b`hovered, b`disabled, b`drawArea
  {
    Touch(b.pressed, b.hovered) == NextTouch(old(Touch(b.pressed, b.hovered)), Setting(b.disabled, b.drawArea), f)
  }

  /** A button's pointer flags: pressed and hovered. */
  datatype Touch = Touch(pressed: bool, hovered: bool)

  /** What a button's frame depends on besides the input and its flags:
      whether it is disabled, and its draw area. */
  datatype Setting = Setting(disabled: bool, area: Rect)

  /** The flags one frame `f` of `Update` leaves on a button with flags
      `t` and setting `s`. */
  function NextTouch(t: Touch, s: Setting, f: Frame): Touch {
    if s.disabled then t
    else Touch(PressedAfter(t.pressed, s.area.Contains(f.mouse), f), s.area.Contains(f.mouse))
  }

  /** One frame as a button sees it: the input and whether the pointer is
      inside the button's draw area. */
  datatype Step = Step(inside: bool, frame: Frame)

  /** The release clicks an enabled button reports over a run of frames. */
  function Clicks(pressed: bool, steps: seq<Step>): nat
    decreases |steps|
  {
    if steps == [] then 0
    else
      var s := steps[0];
      (if ReleaseClick(pressed, s.inside, s.frame) then 1 else 0)
        + Clicks(PressedAfter(pressed, s.inside, s.frame), steps[1..])
  }

  /** The frames of a run with a left press inside the button. */
  function PressesInside(steps: seq<Step>): nat
    decreases |steps|
  {
    if steps == [] then 0
    else (if steps[0].frame.justPressedLeft && steps[0].inside then 1 else 0) + PressesInside(steps[1..])
  }

  /** Every release click is paid for by a press inside the button: over any
      run of frames there are no more clicks than presses inside, plus one
      for a press already held when the run starts. */
  lemma {:induction false} ClicksNeedPressesInside(pressed: bool, steps: seq<Step>)
    ensures Clicks(pressed, steps) <= PressesInside(steps) + (if pressed then 1 else 0)
    decreases |steps|
  {
    if steps != [] {
      var s := steps[0];
      ClicksNeedPressesInside(PressedAfter(pressed, s.inside, s.frame), steps[1..]);
    }
  }

  /** A press inside followed, in the next frame, by a release inside is
      exactly one click. */
  lemma PressThenReleaseClicks(f1: Frame, f2: Frame)
    requires f1.justPressedLeft && !f1.justReleasedLeft
    requires f2.justReleasedLeft
    ensures Clicks(false, [Step(true, f1), Step(true, f2)]) == 1
  {
    assert [Step(true, f1), Step(true, f2)][1..] == [Step(true, f2)];
    assert [Step(true, f2)][1..] == [];
    assert Clicks(true, [Step(true, f2)]) == 1 + Clicks(false, []);
  }

  class Button {
    var bgSprite: Option<Sprite>
    var sizeW: real
    var sizeH: real
    var color: Option<Color>
    const colorPush: Color
    const colorHover: Color
    var pressed: bool
    var focused: bool
    var hovered: bool
    var disabled: bool
    /** The area of the last draw; hit-testing uses it. */
    var drawArea: Rect
    /** Whether an on-click callback is set. */
    var hasOnClick: bool
    var clickSound: Option<Buffer>

    /** `NewButton`, with the size already looked up and the toolkit's click
        sound passed in. */
    constructor (mainColor: Option<Color>, w: real, h: real, background: Option<Sprite>, sound: Option<Buffer>)
      ensures color == mainColor && sizeW == w && sizeH == h && bgSprite == background
      ensures colorPush == ButtonPushColor && colorHover == ButtonHoverColor
      ensures !pressed && !focused && !hovered && !disabled && !hasOnClick
      ensures drawArea == ZeroRect && clickSound == sound
    {
      bgSprite := background;
      sizeW, sizeH := w, h;
      color := mainColor;
      colorPush := ButtonPushColor;
      colorHover := ButtonHoverColor;
      pressed, focused, hovered, disabled := false, false, false, false;
      drawArea := ZeroRect;
      hasOnClick := false;
      clickSound := sound;
    }

    /** The state `Draw` keeps: the area it drew in. */
    method Draw(area: Rect)
      modifies this`drawArea
      ensures drawArea == area
    {
      drawArea := area;
    }

    /** The colour `Draw` paints the background with (None: no mask). */
    function Background(): (c: Option<Color>)
      reads this
      ensures pressed || disabled ==> c == Some(colorPush)
      ensures !pressed && !disabled && hovered ==> c == Some(colorHover)
      ensures !pressed && !disabled && !hovered ==> c == color
    {
      if pressed || disabled then Some(colorPush)
      else if hovered then Some(colorHover)
      else color
    }

    /** `Update`: one frame of input; returns how many times the on-click
        callback ran. The global audio player is passed in. A focused button
        with no callback would call nil on Enter, hence the precondition. */
    method Update(f: Frame, audio: Audio.AudioPlayer?) returns (clicks: nat)
      requires !disabled && focused && f.enter ==> hasOnClick
      modifies this`pressed, this`hovered, (if audio == null then {} else {audio})`control
      ensures disabled ==> pressed == old(pressed) && hovered == old(hovered) && clicks == 0
      ensures disabled && audio != null ==> audio.control == old(audio.control)
      ensures !disabled ==> hovered == drawArea.Contains(f.mouse)
      ensures !disabled ==> pressed == PressedAfter(old(pressed), drawArea.Contains(f.mouse), f)
      ensures Stepped(this, f)
      ensures !disabled ==>
        clicks == (if ReleaseClick(old(pressed), drawArea.Contains(f.mouse), f) && hasOnClick then 1 else 0)
                  + (if focused && f.enter then 1 else 0)
      ensures !disabled && audio != null ==>
        audio.control == (if ReleaseClick(old(pressed), drawArea.Contains(f.mouse), f) && clickSound.Some?
                          then Some(Audio.WholeBuffer(clickSound.value)) else old(audio.control))
    {
      clicks := 0;
      if disabled {
        return;
      }
      if f.justPressedLeft {
        if drawArea.Contains(f.mouse) {
          pressed := true;
        }
      }
      if f.justReleasedLeft {
        if pressed && drawArea.Contains(f.mouse) {
          if hasOnClick {
            clicks := clicks + 1;
          }
          if audio != null && clickSound != None {
            var _ := audio.Play(clickSound.value);
          }
        }
        pressed := false;
      }
      hovered := drawArea.Contains(f.mouse);
      if focused {
        if f.enter {
          clicks := clicks + 1;
        }
      }
    }

    /** `SetBackground`: the sprite replaces the background colour. */
    method SetBackground(s: Option<Sprite>)
      modifies this`bgSprite, this`color
      ensures bgSprite == s && color == None
    {
      bgSprite := s;
      color := None;
    }

    method SetColor(c: Option<Color>)
      modifies this`color
      ensures color == c
    {
      color := c;
    }

    method Focus(focus: bool)
      modifies this`focused
      ensures focused == focus
    {
      focused := focus;
    }

    /** `Active`: an inactive button ignores input and is drawn pushed. */
    method Active(active: bool)
      modifies this`disabled
      ensures disabled == !active
    {
      disabled := !active;
    }

    method SetOnClickFunc(present: bool)
      modifies this`hasOnClick
      ensures hasOnClick == present
    {
      hasOnClick := present;
    }

    method SetClickSound(s: Option<Buffer>)
      modifies this`clickSound
      ensures clickSound == s
    {
      clickSound := s;
    }

    /** `Size`: the frame of the background sprite when there is one,
        otherwise the configured size. */
    function Size(): (r: (real, real))
      reads this
      ensures bgSprite.Some? ==> r == (bgSprite.value.frameW, bgSprite.value.frameH)
      ensures bgSprite.None? ==> r == (sizeW, sizeH)
    {
      SpriteSize(bgSprite, sizeW, sizeH)
    }
  }
}
