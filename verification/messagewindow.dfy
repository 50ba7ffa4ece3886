/** The message window: a text box with an accept button (and, for a
    dialog, a cancel button). A new window is open; Escape, Enter and the
    buttons dismiss it as cancelled or accepted, and a dismissed window
    stays dismissed. */
module MessageWindows {
  import opened Values
  import opened Input
  import Audio
  import Buttons
  import TextLayout
  import Textboxes

  /** The callbacks a dismissal runs, in the order they ran. */
  datatype Notice = AcceptNotice | CancelNotice

  /** The window state its methods change, with the callbacks run so far. */
  datatype Flags = Flags(open: bool, focused: bool, dismissed: bool, accepted: bool, notices: seq<Notice>)

  /** A new window: open, unfocused, not dismissed, not accepted. */
  const Fresh := Flags(true, false, false, false, [])

  /** `reset`: closed and unfocused. */
  function Closed(s: Flags): Flags {
    s.(open := false, focused := false)
  }

  /** `accept`: reset, dismissed and accepted; `onAccept` runs if set. */
  function Accepted(s: Flags, hasOnAccept: bool): Flags {
    Closed(s).(dismissed := true, accepted := true,
               notices := s.notices + (if hasOnAccept then [AcceptNotice] else []))
  }

  /** `cancel`: reset, dismissed and not accepted; `onCancel` runs if set. */
  function Cancelled(s: Flags, hasOnCancel: bool): Flags {
    Closed(s).(dismissed := true, accepted := false,
               notices := s.notices + (if hasOnCancel then [CancelNotice] else []))
  }

  /** The keys, which act only on a window focused when the frame begins:
      Escape cancels, then Enter accepts. */
  function Keys(s: Flags, f: Frame, hasOnAccept: bool, hasOnCancel: bool): Flags {
    if !s.focused then s
    else
      var s1 := if f.escape then Cancelled(s, hasOnCancel) else s;
      if f.enter then Accepted(s1, hasOnAccept) else s1
  }

  /** A left press inside the window focuses it. */
  function Click(s: Flags, inside: bool, f: Frame): Flags {
    if inside && f.justPressedLeft then s.(focused := true) else s
  }

  /** One run of a button handler: a focused window is accepted (accept
      button) or cancelled (cancel button); an unfocused one is left alone. */
  function Handle(s: Flags, accept: bool, hasOnAccept: bool, hasOnCancel: bool): Flags {
    if !s.focused then s
    else if accept then Accepted(s, hasOnAccept)
    else Cancelled(s, hasOnCancel)
  }

  /** A button handler run `n` times in one frame. */
  function Handled(s: Flags, n: nat, accept: bool, hasOnAccept: bool, hasOnCancel: bool): Flags
    decreases n
  {
    if n == 0 then s
    else Handle(Handled(s, n - 1, accept, hasOnAccept, hasOnCancel), accept, hasOnAccept, hasOnCancel)
  }

  /** A handler that runs several times acts at most once: its first run on
      a focused window dismisses it and unfocuses it. */
  lemma {:induction false} HandledActsOnce(s: Flags, n: nat, accept: bool, hasOnAccept: bool, hasOnCancel: bool)
    ensures Handled(s, n, accept, hasOnAccept, hasOnCancel) ==
      (if n > 0 then Handle(s, accept, hasOnAccept, hasOnCancel) else s)
    decreases n
  {
    if n > 1 {
      HandledActsOnce(s, n - 1, accept, hasOnAccept, hasOnCancel);
    }
  }

  /** One `Update` of an enabled window: the keys, the click that focuses,
      then the accept button's and the cancel button's handlers, each run
      as many times as that button fired. */
  function Updated(s: Flags, f: Frame, inside: bool, acceptClicks: nat, cancelClicks: nat,
                   hasOnAccept: bool, hasOnCancel: bool): Flags
  {
    var s1 := Click(Keys(s, f, hasOnAccept, hasOnCancel), inside, f);
    var s2 := Handled(s1, acceptClicks, true, hasOnAccept, hasOnCancel);
    Handled(s2, cancelClicks, false, hasOnAccept, hasOnCancel)
  }

  /** Dismissal is final, and a window is only ever accepted as part of
      being dismissed: both survive any frame. */
  lemma UpdateKeepsDismissal(s: Flags, f: Frame, inside: bool, acceptClicks: nat, cancelClicks: nat,
                             hasOnAccept: bool, hasOnCancel: bool)
    requires s.accepted ==> s.dismissed
    ensures var r := Updated(s, f, inside, acceptClicks, cancelClicks, hasOnAccept, hasOnCancel);
      (s.dismissed ==> r.dismissed) && (r.accepted ==> r.dismissed)
  {
    var s1 := Click(Keys(s, f, hasOnAccept, hasOnCancel), inside, f);
    HandledActsOnce(s1, acceptClicks, true, hasOnAccept, hasOnCancel);
    var s2 := Handled(s1, acceptClicks, true, hasOnAccept, hasOnCancel);
    HandledActsOnce(s2, cancelClicks, false, hasOnAccept, hasOnCancel);
  }

  /** What one enabled frame brings a window: the input, whether the pointer
      is inside it and how many times each button fired. */
  datatype Tick = Tick(f: Frame, inside: bool, acceptClicks: nat, cancelClicks: nat)

  /** The window after a run of enabled frames. */
  function Run(s: Flags, ticks: seq<Tick>, hasOnAccept: bool, hasOnCancel: bool): Flags
    decreases |ticks|
  {
    if ticks == [] then s
    else
      var t := ticks[0];
      Run(Updated(s, t.f, t.inside, t.acceptClicks, t.cancelClicks, hasOnAccept, hasOnCancel),
          ticks[1..], hasOnAccept, hasOnCancel)
  }

  /** Over any run of frames a dismissed window stays dismissed, and a
      window that ends accepted has been dismissed. */
  lemma {:induction false} RunKeepsDismissal(s: Flags, ticks: seq<Tick>, hasOnAccept: bool, hasOnCancel: bool)
    requires s.accepted ==> s.dismissed
    ensures var r := Run(s, ticks, hasOnAccept, hasOnCancel);
      (s.dismissed ==> r.dismissed) && (r.accepted ==> r.dismissed)
    decreases |ticks|
  {
    if ticks != [] {
      var t := ticks[0];
      UpdateKeepsDismissal(s, t.f, t.inside, t.acceptClicks, t.cancelClicks, hasOnAccept, hasOnCancel);
      RunKeepsDismissal(Updated(s, t.f, t.inside, t.acceptClicks, t.cancelClicks, hasOnAccept, hasOnCancel),
                        ticks[1..], hasOnAccept, hasOnCancel);
    }
  }

  /** A window that is not focused and gets no left press inside it is
      left exactly as it was, whatever keys and buttons fire. */
  lemma UnfocusedIgnoresInput(s: Flags, f: Frame, inside: bool, acceptClicks: nat, cancelClicks: nat,
                              hasOnAccept: bool, hasOnCancel: bool)
    requires !s.focused && !(inside && f.justPressedLeft)
    ensures Updated(s, f, inside, acceptClicks, cancelClicks, hasOnAccept, hasOnCancel) == s
  {
    HandledActsOnce(s, acceptClicks, true, hasOnAccept, hasOnCancel);
    HandledActsOnce(s, cancelClicks, false, hasOnAccept, hasOnCancel);
  }

  /** Escape and Enter in one frame on a focused window: cancel runs, then
      accept, and the window ends accepted with both callbacks run in that
      order. Escape cancels whether or not there is a cancel button. */
  lemma EscapeThenEnterAccepts(s: Flags, f: Frame, hasOnAccept: bool, hasOnCancel: bool)
    requires s.focused && f.escape && f.enter
    ensures var r := Keys(s, f, hasOnAccept, hasOnCancel);
      r.dismissed && r.accepted && !r.open && !r.focused
      && r.notices == s.notices + (if hasOnCancel then [CancelNotice] else [])
                                + (if hasOnAccept then [AcceptNotice] else [])
  {
  }

  /** The callbacks a button fires in one frame, as `Button.Update` counts
      them: a release click inside (when a callback is set) and Enter while
      the button is focused; none while it is disabled. */
  ghost function Fired(b: Buttons.Button, pressed: bool, f: Frame): (n: nat)
    reads b`disabled, b`drawArea, b`hasOnClick, b`focused
    ensures b.disabled ==> n == 0
    ensures n <= 2
  {
    if b.disabled then 0
    else (if Buttons.ReleaseClick(pressed, b.drawArea.Contains(f.mouse), f) && b.hasOnClick then 1 else 0)
         + (if b.focused && f.enter then 1 else 0)
  }

  /** A window button: `NewButton` with a plain colour, and its callback
      set. */
  method NewHandledButton(c: Option<Color>, w: real, h: real, sound: Option<Buffer>) returns (b: Buttons.Button)
    ensures fresh(b) && b.hasOnClick && !b.focused && b.color == c && b.sizeH == h
  {
    b := new Buttons.Button(c, w, h, None, sound);
    b.SetOnClickFunc(true);
  }

  /** What one frame changes in a window's parts: the text box's cursor
      and written text, and each button's pointer flags (a missing cancel
      button reads as untouched). */
  datatype PartsState = PartsState(box: Textboxes.BoxState, accept: Buttons.Touch, cancel: Buttons.Touch)

  /** What a frame of a window's parts depends on besides the input and
      their state: each button's setting (a missing cancel button reads as
      disabled), and what the text box's frame depends on. */
  datatype PartsEnv = PartsEnv(accept: Buttons.Setting, hasCancel: bool, cancel: Buttons.Setting, box: Textboxes.BoxEnv)

  /** The state the buttons' part of one frame `f` leaves in the parts from
      state `s`: the accept button steps, then the cancel button if there
      is one. */
  function FrameButtons(s: PartsState, e: PartsEnv, f: Frame): PartsState {
    var s1 := StepButton(s, e, true, f);
    if e.hasCancel then StepButton(s1, e, false, f) else s1
  }

  /** The state one button's frame `f` leaves in the parts from state `s`:
      the accept button (`accept`) or the cancel button steps. */
  function StepButton(s: PartsState, e: PartsEnv, accept: bool, f: Frame): PartsState {
    if accept then s.(accept := Buttons.NextTouch(s.accept, e.accept, f))
    else s.(cancel := Buttons.NextTouch(s.cancel, e.cancel, f))
  }

  /** The state one frame `f` of an enabled window's `Update` leaves in its
      parts from state `s`: the text box's frame, then the buttons'. */
  function FrameParts(s: PartsState, e: PartsEnv, f: Frame): PartsState {
    FrameButtons(s.(box := Textboxes.FrameBox(s.box, e.box, f)), e, f)
  }

  class MessageWindow {
    var drawArea: Rect
    var sizeW: real
    var sizeH: real
    var color: Option<Color>
    const colorDisable: Color
    const textbox: Textboxes.Textbox
    const acceptButton: Buttons.Button
    /** Null for a plain message window, set for a dialog. */
    const cancelButton: Buttons.Button?
    var open: bool
    var focused: bool
    var accepted: bool
    var dismissed: bool
    var disabled: bool
    /** Whether the `onAccept` and `onCancel` callbacks are set. */
    var hasOnAccept: bool
    var hasOnCancel: bool
    /** The callbacks run so far, in order. */
    var notices: seq<Notice>

    /** The cancel button as a set: empty for a plain message window. */
    function CancelSet(): set<Buttons.Button> {
      if cancelButton == null then {} else {cancelButton}
    }

    /** Every button the window owns, its text box's included. */
    function Parts(): set<Buttons.Button> {
      {acceptButton, textbox.upButton, textbox.downButton} + CancelSet()
    }

    /** The state one frame changes in the window's parts. */
    ghost function PartsNow(): PartsState
      reads Parts()`pressed, Parts()`hovered, textbox`startID, textbox`rendered
    {
      PartsState(textbox.Now(), Buttons.Touch(acceptButton.pressed, acceptButton.hovered),
        if cancelButton == null then Buttons.Touch(false, false)
        else Buttons.Touch(cancelButton.pressed, cancelButton.hovered))
    }

    /** What a frame of the window's parts depends on besides the input. */
    ghost function Env(): PartsEnv
      reads Parts()`disabled, Parts()`drawArea, textbox`textContent, textbox`bgH, textbox`bgW
    {
      PartsEnv(Buttons.Setting(acceptButton.disabled, acceptButton.drawArea), cancelButton != null,
        if cancelButton == null then Buttons.Setting(true, ZeroRect)
        else Buttons.Setting(cancelButton.disabled, cancelButton.drawArea),
        textbox.Env())
    }

    /** The window's parts went through one frame `f` of an enabled
        window's `Update`: every button stepped, and the text box scrolled
        as the keys and its scroll buttons asked. */
    twostate predicate Framed(f: Frame)
      reads Parts()`pressed, Parts()`hovered, textbox`startID, textbox`rendered
    {
      PartsNow() == old(FrameParts(PartsNow(), Env(), f))
    }

    /** The buttons' part of frame `f` went through the parts. */
    twostate predicate ButtonsFramed(f: Frame)
      reads Parts()`pressed, Parts()`hovered, textbox`startID, textbox`rendered
    {
      PartsNow() == old(FrameButtons(PartsNow(), Env(), f))
    }

    /** The window's parts are as they were: no frame reached them. */
    twostate predicate PartsKept()
      reads Parts()`pressed, Parts()`hovered, textbox`startID, textbox`rendered
    {
      PartsNow() == old(PartsNow())
    }

    /** The flags `s` after the accept button and then the cancel button
        ran their handlers as often as each fires in frame `f`. */
    ghost function ButtonsHandled(s: Flags, f: Frame): Flags
      reads this`hasOnAccept, this`hasOnCancel
      reads acceptButton`pressed, acceptButton`disabled, acceptButton`drawArea, acceptButton`hasOnClick, acceptButton`focused
      reads CancelSet()`pressed, CancelSet()`disabled, CancelSet()`drawArea, CancelSet()`hasOnClick, CancelSet()`focused
    {
      Handled(Handled(s, Fired(acceptButton, acceptButton.pressed, f), true, hasOnAccept, hasOnCancel),
              if cancelButton == null then 0 else Fired(cancelButton, cancelButton.pressed, f),
              false, hasOnAccept, hasOnCancel)
    }

    /** The flags `s` after one frame `f` of this enabled window: `Updated`
        with the click inside the window's area and the callbacks its
        buttons fire. */
    ghost function UpdatedBy(s: Flags, f: Frame): (r: Flags)
      reads this`drawArea, this`hasOnAccept, this`hasOnCancel
      reads acceptButton`pressed, acceptButton`disabled, acceptButton`drawArea, acceptButton`hasOnClick, acceptButton`focused
      reads CancelSet()`pressed, CancelSet()`disabled, CancelSet()`drawArea, CancelSet()`hasOnClick, CancelSet()`focused
      ensures r == Updated(s, f, drawArea.Contains(f.mouse),
        Fired(acceptButton, acceptButton.pressed, f),
        if cancelButton == null then 0 else Fired(cancelButton, cancelButton.pressed, f),
        hasOnAccept, hasOnCancel)
    {
      ButtonsHandled(Click(Keys(s, f, hasOnAccept, hasOnCancel), drawArea.Contains(f.mouse), f), f)
    }

    /** The text box is valid, the buttons are distinct, and each button's
        callback is set. */
    ghost predicate Valid()
      reads acceptButton`hasOnClick, CancelSet()`hasOnClick
      reads textbox.upButton`hasOnClick, textbox.upButton`focused
      reads textbox.downButton`hasOnClick, textbox.downButton`focused
    {
      textbox.Valid()
      && acceptButton != textbox.upButton && acceptButton != textbox.downButton
      && acceptButton.hasOnClick
      && (cancelButton != null ==>
            cancelButton != acceptButton && cancelButton != textbox.upButton
            && cancelButton != textbox.downButton && cancelButton.hasOnClick)
    }

    function State(): Flags
      reads this`open, this`focused, this`dismissed, this`accepted, this`notices
    {
      Flags(open, focused, dismissed, accepted, notices)
    }

    /** `NewMessageWindow` (`dialog` false) and `NewDialogWindow` (`dialog`
        true), with the sizes looked up and the font measurement and click
        sound passed in: `w` by `h` for the window, `buttonW` by `buttonH`
        for its buttons, `scrollW` by `scrollH` for the text box's. The text
        box fills the window above the accept button and holds the message
        as its one line. */
    constructor (mainColor: Option<Color>, secColor: Option<Color>, w: real, h: real, info: string,
                 m: TextLayout.Metrics, buttonW: real, buttonH: real, scrollW: real, scrollH: real,
                 sound: Option<Buffer>, dialog: bool)
      ensures Valid() && fresh(textbox) && fresh(textbox.upButton) && fresh(textbox.downButton)
      ensures fresh(acceptButton) && fresh(CancelSet())
      ensures cancelButton != null <==> dialog
      ensures State() == Fresh && !disabled && !hasOnAccept && !hasOnCancel
      ensures sizeW == w && sizeH == h && color == mainColor && colorDisable == Darkgrey
      ensures drawArea == ZeroRect
      ensures acceptButton.color == secColor && (cancelButton != null ==> cancelButton.color == secColor)
      ensures textbox.textContent == [info] && textbox.startID == 0 && textbox.rendered == textbox.Window()
      ensures textbox.bgW == w && textbox.bgH == h - buttonH && textbox.color == mainColor
    {
      var accept := NewHandledButton(secColor, buttonW, buttonH, sound);
      var box := new Textboxes.Textbox(mainColor, secColor, w, h - accept.sizeH, m, scrollW, scrollH, sound);
      box.SetText([info]);
      var cancel: Buttons.Button? := null;
      if dialog {
        cancel := NewHandledButton(secColor, buttonW, buttonH, sound);
      }
      drawArea := ZeroRect;
      sizeW, sizeH := w, h;
      color := mainColor;
      colorDisable := Darkgrey;
      textbox, acceptButton, cancelButton := box, accept, cancel;
      open, focused, accepted, dismissed, disabled := true, false, false, false, false;
      hasOnAccept, hasOnCancel := false, false;
      notices := [];
    }

    /** The state `Draw` keeps: the areas of the window, its buttons, its
        text box and the text box's scroll buttons (their placement inside
        the window is computed by layout helpers that are not part of this
        model). Parts are drawn accept, cancel, text box, so where two of
        them are one object the later area is the one kept. */
    method Draw(area: Rect, acceptArea: Rect, cancelArea: Rect, boxArea: Rect, upArea: Rect, downArea: Rect)
      modifies this`drawArea, acceptButton`drawArea, CancelSet()`drawArea, textbox`drawArea
      modifies textbox.upButton`drawArea, textbox.downButton`drawArea
      ensures drawArea == area && textbox.drawArea == boxArea
      ensures textbox.downButton.drawArea == downArea
      ensures textbox.upButton != textbox.downButton ==> textbox.upButton.drawArea == upArea
      ensures cancelButton != null && cancelButton != textbox.upButton && cancelButton != textbox.downButton
              ==> cancelButton.drawArea == cancelArea
      ensures cancelButton != acceptButton && acceptButton != textbox.upButton && acceptButton != textbox.downButton
              ==> acceptButton.drawArea == acceptArea
    {
      drawArea := area;
      acceptButton.Draw(acceptArea);
      if cancelButton != null {
        cancelButton.Draw(cancelArea);
      }
      textbox.Draw(boxArea, upArea, downArea);
    }

    /** The colour `Draw` fills the background with. */
    function Background(): (c: Option<Color>)
      reads this`disabled, this`color
      ensures disabled ==> c == Some(colorDisable)
      ensures !disabled ==> c == color
    {
      if disabled then Some(colorDisable) else color
    }

    /** `Update`: nothing while disabled. Otherwise the keys (only if
        focused), a left press inside that focuses, then one frame of the
        text box and of each button, whose handlers accept or cancel a
        focused window. The global audio player is passed in. */
    method Update(f: Frame, audio: Audio.AudioPlayer?)
      requires Valid()
      modifies this`open, this`focused, this`dismissed, this`accepted, this`notices
      modifies textbox`startID, textbox`rendered, Parts()`pressed, Parts()`hovered
      modifies (if audio == null then {} else {audio})`control
      ensures Valid()
      ensures old(disabled) ==> State() == old(State())
      ensures old(disabled) ==> unchanged(textbox) && unchanged(Parts())
      ensures old(disabled) && audio != null ==> audio.control == old(audio.control)
      ensures !disabled ==> State() == old(UpdatedBy(State(), f))
      ensures !disabled ==> Framed(f)
    {
      if disabled {
        return;
      }
      UpdateEnabled(f, audio);
    }

    /** `Update` of an enabled window. */
    method UpdateEnabled(f: Frame, audio: Audio.AudioPlayer?)
      requires Valid()
      modifies this`open, this`focused, this`dismissed, this`accepted, this`notices
      modifies textbox`startID, textbox`rendered, textbox.upButton`pressed, textbox.upButton`hovered
      modifies textbox.downButton`pressed, textbox.downButton`hovered
      modifies acceptButton`pressed, acceptButton`hovered, CancelSet()`pressed, CancelSet()`hovered
      modifies (if audio == null then {} else {audio})`control
      ensures Valid()
      ensures State() == old(UpdatedBy(State(), f))
      ensures Framed(f)
    {
      UpdateWindow(f);
      UpdateParts(f, audio);
    }

    /** The text box and the buttons, in that order, inside `Update`. */
    method UpdateParts(f: Frame, audio: Audio.AudioPlayer?)
      requires Valid()
      modifies this`open, this`focused, this`dismissed, this`accepted, this`notices
      modifies textbox`startID, textbox`rendered, textbox.upButton`pressed, textbox.upButton`hovered
      modifies textbox.downButton`pressed, textbox.downButton`hovered
      modifies acceptButton`pressed, acceptButton`hovered, CancelSet()`pressed, CancelSet()`hovered
      modifies (if audio == null then {} else {audio})`control
      ensures Valid()
      ensures Framed(f)
      ensures State() == old(ButtonsHandled(State(), f))
    {
      ghost var env, want := Env(), ButtonsHandled(State(), f);
      UpdateBox(f, audio);
      assert Env() == env && ButtonsHandled(State(), f) == want;
      UpdateButtons(f, audio);
    }

    /** The text box's part of `Update`, leaving the window's flags and its
        accept and cancel buttons alone. */
    method UpdateBox(f: Frame, audio: Audio.AudioPlayer?)
      requires Valid()
      modifies textbox`startID, textbox`rendered, textbox.upButton`pressed, textbox.upButton`hovered
      modifies textbox.downButton`pressed, textbox.downButton`hovered
      modifies (if audio == null then {} else {audio})`control
      ensures Valid()
      ensures unchanged(this, acceptButton) && unchanged(CancelSet())
      ensures textbox.Framed(f)
    {
      textbox.Update(f, audio);
    }

    /** The window's own part of `Update`: the keys if it is focused, then
        a left press inside it focuses it. */
    method UpdateWindow(f: Frame)
      modifies this`open, this`focused, this`dismissed, this`accepted, this`notices
      ensures State() == Click(Keys(old(State()), f, hasOnAccept, hasOnCancel), drawArea.Contains(f.mouse), f)
      ensures unchanged(acceptButton, textbox, textbox.upButton, textbox.downButton) && unchanged(CancelSet())
    {
      if focused {
        if f.escape {
          Cancel();
        }
        if f.enter {
          Accept();
        }
      }
      if drawArea.Contains(f.mouse) {
        if f.justPressedLeft {
          Focus(true);
        }
      }
    }

    /** The buttons' part of `Update`: the accept button, then the cancel
        button. */
    method UpdateButtons(f: Frame, audio: Audio.AudioPlayer?)
      requires Valid()
      modifies this`open, this`focused, this`dismissed, this`accepted, this`notices
      modifies acceptButton`pressed, acceptButton`hovered, CancelSet()`pressed, CancelSet()`hovered
      modifies (if audio == null then {} else {audio})`control
      ensures Valid()
      ensures unchanged(textbox, textbox.upButton, textbox.downButton)
      ensures ButtonsFramed(f)
      ensures State() == old(ButtonsHandled(State(), f))
    {
      ghost var nc := if cancelButton == null then 0 else Fired(cancelButton, cancelButton.pressed, f);
      ButtonFrame(acceptButton, true, f, audio);
      if cancelButton != null {
        assert Fired(cancelButton, cancelButton.pressed, f) == nc;
        ButtonFrame(cancelButton, false, f, audio);
      }
    }

    /** One button's frame inside `Update`: the button updates and its
        handler runs as often as it fired. */
    method ButtonFrame(b: Buttons.Button, accept: bool, f: Frame, audio: Audio.AudioPlayer?)
      requires Valid() && b == (if accept then acceptButton else cancelButton)
      modifies this`open, this`focused, this`dismissed, this`accepted, this`notices
      modifies b`pressed, b`hovered, (if audio == null then {} else {audio})`control
      ensures Valid() && unchanged(textbox, textbox.upButton, textbox.downButton)
      ensures PartsNow() == old(StepButton(PartsNow(), Env(), accept, f))
      ensures State() == old(Handled(State(), Fired(b, b.pressed, f), accept, hasOnAccept, hasOnCancel))
    {
      var n := b.Update(f, audio);
      RunHandler(n, accept);
    }

    /** A button handler run `n` times, as `Button.Update` calls it. */
    method RunHandler(n: nat, accept: bool)
      modifies this`open, this`focused, this`dismissed, this`accepted, this`notices
      ensures State() == old(Handled(State(), n, accept, hasOnAccept, hasOnCancel))
    {
      for k := 0 to n
        invariant State() == Handled(old(State()), k, accept, hasOnAccept, hasOnCancel)
      {
        if accept {
          OnAcceptButtonClicked();
        } else {
          OnCancelButtonClicked();
        }
      }
    }

    method Show(show: bool)
      modifies this`open
      ensures open == show
    {
      open := show;
    }

    method Active(active: bool)
      modifies this`disabled
      ensures disabled == !active
    {
      disabled := !active;
    }

    method Focus(focus: bool)
      modifies this`focused
      ensures focused == focus
    {
      focused := focus;
    }

    method SetOnAcceptFunc(present: bool)
      modifies this`hasOnAccept
      ensures hasOnAccept == present
    {
      hasOnAccept := present;
    }

    method SetOnCancelFunc(present: bool)
      modifies this`hasOnCancel
      ensures hasOnCancel == present
    {
      hasOnCancel := present;
    }

    /** The accept button's handler: accepts only a focused window. */
    method OnAcceptButtonClicked()
      modifies this`open, this`focused, this`dismissed, this`accepted, this`notices
      ensures State() == Handle(old(State()), true, hasOnAccept, hasOnCancel)
    {
      if focused {
        Accept();
      }
    }

    /** The cancel button's handler: cancels only a focused window. */
    method OnCancelButtonClicked()
      modifies this`open, this`focused, this`dismissed, this`accepted, this`notices
      ensures State() == Handle(old(State()), false, hasOnAccept, hasOnCancel)
    {
      if focused {
        Cancel();
      }
    }

    /** `reset`: closed and unfocused; nothing else changes. */
    method Reset()
      modifies this`open, this`focused
      ensures State() == Closed(old(State()))
    {
      open := false;
      focused := false;
    }

    /** `accept`. */
    method Accept()
      modifies this`open, this`focused, this`dismissed, this`accepted, this`notices
      ensures State() == Accepted(old(State()), hasOnAccept)
    {
      Reset();
      dismissed := true;
      accepted := true;
      if hasOnAccept {
        notices := notices + [AcceptNotice];
      }
    }

    /** `cancel`. */
    method Cancel()
      modifies this`open, this`focused, this`dismissed, this`accepted, this`notices
      ensures State() == Cancelled(old(State()), hasOnCancel)
    {
      Reset();
      dismissed := true;
      accepted := false;
      if hasOnCancel {
        notices := notices + [CancelNotice];
      }
    }
  }
}
