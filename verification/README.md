# mtk widget core, modelled in Dafny

mtk is a small GUI toolkit on top of the pixel graphics library. Its widgets
are objects. Once per frame a game calls their `Update` with the window's
input, and `Draw` with a transformation matrix. The model covers the state
machines behind the widgets:

- the push button: pressed/hovered, click counting, click sound;
- the value switch: a wrap-around index and `onChange` notifications;
- the inventory slot: a value stack, click dispatch by mouse button and
  special key, and the count label;
- the one-line text edit;
- the text widget's line breaking (`breakPoint`, `SplitSubN`, `breakLine`);
- the scrolling text box: the cursor, and the visible window it computes;
- the message window: open, focused, dismissed and accepted flags, and the
  accept and cancel callbacks;
- the focus registry;
- the message queue, which activates and focuses its last window and drops
  dismissed ones;
- the audio playlist player;
- the handlers of the slot and slot-list examples.

Widgets whose fields are updated in place are classes, with field-granular
`modifies` and `reads` frames. Pure helpers, such as the line breaking, the
wrap-around index and the visible window of a text box, are functions. Each
loop of the source is a method proved against such a function. Properties
that relate several calls are lemmas over those functions. Some examples:

- a dismissed message window stays dismissed over any run of frames;
- the focus registry leaves at most one focused widget;
- every release click of a button is paid for by a press inside it;
- the visible window of a text box is a contiguous run of wrapped lines,
  and it stops exactly when the box is full;
- `SplitSubN` loses no text of a valid UTF-8 string.

The model works on these inputs instead of the library's own:

- **Input.** A `Frame` value holds the pointer position, the
  just-pressed/just-released mouse buttons, the keys of interest and the
  bytes typed during the frame.
- **Hit-testing.** A widget tests the pointer against the area of its
  previous draw. `Rect.Contains` includes the borders, as the graphics
  library's rectangle test does.
- **Text measurement.** The font's `BoundsOf(s).W()`/`.H()` is a
  `Metrics` value holding two total functions.
- **Globals as parameters.** The toolkit's global audio player, its button
  click sound and its size tables are passed in as parameters.
- **Callbacks.** A callback the caller supplies is modelled as a flag saying
  whether it is set. Where its calls matter, they are recorded as a trace:
  `changes` of a switch, `notices` of a message window, `clicks` of a slot.
- **Go values.** Go's `interface{}` payloads are the `Value` datatype, and a
  possibly-nil slice is `Slice<T>`.

Where the toolkit's doc comments and the Go code disagree, the model
follows the code:

- `Slot.Pop` returns the last value, not the first as its comment says.
- `MessageQueue.Append` adds at the tail (the window drawn last and
  activated), not at the "front" its comment names.

## Model

| member | source | states |
|---|---|---|
| Values.Decimal | slot.go:150 | the count label text is a non-empty string of decimal digits |
| Values.DigitChar | slot.go:150 | each digit character stands for its digit value |
| Values.DecimalRoundTrip | slot.go:150 | reading the count label back gives the count: `ParseDecimal(Decimal(n)) == n` |
| Values.DecimalNoLeadingZero | slot.go:150 | the count label starts with '0' only for the count 0 |
| Values.SpriteSize | button.go:222-227 | a widget's size is its background sprite's frame when it has one, otherwise its configured size |
| Input.ZeroRectHitsOnlyOrigin | button.go:58-58 | a widget never drawn hit-tests against the zero rectangle, which holds exactly the origin |
| Cyclic.Wrap | switch.go:283-292 | the wrap-around index: in range for a non-empty list, unchanged when already in range, past the end goes to 0, before the start goes to the last entry |
| Cyclic.WalkStaysInRange | switch.go:313-329 | any non-empty run of next/previous clicks over a non-empty list leaves the index in range, from any start |
| Cyclic.WalkAppend | switch.go:313-329 | two runs of clicks compose: walking `s1 + s2` is walking `s1`, then `s2` |
| Cyclic.NextPrevInverse | switch.go:313-329 | from an in-range index, next then previous, and previous then next, return to the same index |
| Audio.AudioPlayer.constructor | audioplayer.go:47-64 | a fresh player: empty playlist, cursor 0, nothing playing, volume 0, not muted |
| Audio.AudioPlayer.NewAudioPlayer | audioplayer.go:47-64 | an error exactly when the speaker cannot be initialised, and then no player; otherwise a fresh player in the initial state |
| Audio.AudioPlayer.AddAudio | audioplayer.go:67-70 | the buffer is appended at the tail, duplicates kept; no error |
| Audio.AudioPlayer.SetPlaylist | audioplayer.go:79-81 | the playlist is replaced |
| Audio.AudioPlayer.ResumePlaylist | audioplayer.go:84-91 | with the cursor on an entry, that whole buffer is playing; otherwise the control is untouched |
| Audio.AudioPlayer.Play | audioplayer.go:94-99 | the whole buffer replaces whatever was playing; no error |
| Audio.AudioPlayer.StopPlaylist | audioplayer.go:102-109 | nothing plays afterwards |
| Audio.AudioPlayer.Reset | audioplayer.go:113-116 | nothing plays and the cursor is back on the first entry |
| Audio.AudioPlayer.SetVolume | audioplayer.go:121-129 | `Volume` then returns what was set |
| Audio.AudioPlayer.SetMute | audioplayer.go:132-139 | `Muted` then returns what was set |
| Audio.AudioPlayer.Clear | audioplayer.go:148-150 | the playlist is empty |
| Audio.AudioPlayer.SetPlayIndex | audioplayer.go:163-172 | the cursor follows the wrap-around rule, so for a non-empty playlist it always lands on an entry |
| Buttons.PressedAfter | button.go:124-158 | a release always clears `pressed`; otherwise the button is pressed iff it was already, or the left button was just pressed inside it |
| Buttons.ClicksNeedPressesInside | button.go:124-158 | over any run of frames, the clicks reported never exceed the presses inside, plus one for a press already held |
| Buttons.PressThenReleaseClicks | button.go:124-158 | a press inside followed by a release inside is exactly one click |
| Buttons.Button.constructor | button.go:64-90 | a new button: the given colour, size, background and click sound; not pressed, focused, hovered or disabled; no callback; never drawn |
| Buttons.Button.Draw | button.go:93-96 | hit-testing afterwards uses the area drawn in |
| Buttons.Button.Background | button.go:97-102 | pressed or disabled paints the push colour, otherwise hovered paints the hover colour, otherwise the main colour |
| Buttons.Button.Update | button.go:124-158 | a disabled button changes nothing and reports no click; an enabled one tracks hover, follows `PressedAfter`, reports one callback per release click inside (if a callback is set) plus one for Enter while focused, and plays the click sound on a release click |
| Buttons.Button.SetBackground | button.go:162-165 | the sprite replaces the background colour |
| Buttons.Button.SetColor | button.go:169-171 | the main colour is replaced |
| Buttons.Button.Focus | button.go:185-187 | `focused` is as requested |
| Buttons.Button.Active | button.go:195-197 | an inactive button is disabled |
| Buttons.Button.SetOnClickFunc | button.go:206-208 | whether a callback is set |
| Buttons.Button.SetClickSound | button.go:212-214 | the click sound is replaced |
| Buttons.Button.Size | button.go:222-227 | the background sprite's frame when there is one, otherwise the configured size |
| Switches.Lookup | switch.go:244-249 | an entry exactly for an in-range index, and then the entry at that index |
| Switches.ChangeTraceOnePerClick | switch.go:313-329 | each click makes exactly one `onChange` call |
| Switches.ChangeTraceChains | switch.go:313-329 | each call's old value is the previous call's new value, and the last new value is the entry under the final index |
| Switches.ChangeTraceAppend | switch.go:313-329 | the calls of two runs of clicks are those of the first, then those of the second from where the first left the index |
| Switches.ClicksCompose | switch.go:139-155 | two frames of clicks leave the index and the calls of the combined run |
| Switches.ChangeTraceAfterIsSome | switch.go:313-329 | on a non-empty switch, every call's new value is an entry (never nil) |
| Switches.IntValuesAsWritten | switch.go:200-206 | the loop as written completes only when `min == max` or `min == 0 < max`, and then holds the integers from `min` |
| Switches.Switch.constructor | switch.go:64-105 | a new switch: no values, index 0, no calls, empty label as wide as the background, both buttons in the secondary colour (red by default) |
| Switches.Switch.Draw | switch.go:108-136 | the switch and its previous and next buttons keep the areas they were drawn in, which `Update` hit-tests against |
| Switches.Switch.Update | switch.go:139-155 | a disabled switch changes nothing; an enabled one tracks hover; both buttons' pressed and hovered flags step, and the previous and the next button's clicks each move the index one step with wrap-around, record one `onChange` call if a callback is set, and refresh the view |
| Switches.Switch.ButtonFrame | switch.go:152-153 | one button's frame inside `Update`: the button's pressed and hovered flags step as `Buttons.NextTouch` says, and a release click inside moves the index by one step, records its call and shows the current entry |
| Switches.Switch.UpdateValueView | switch.go:300-310 | a non-empty switch shows the current entry: its picture, or else its label; an empty one shows what it did |
| Switches.Switch.SetValues | switch.go:193-196 | the values are replaced and the current entry is shown |
| Switches.Switch.SetIntValues | switch.go:200-206 | the values are the integers `min` to `max - 1` in order, each as view and value, and the current entry is shown |
| Switches.Switch.SetIndex | switch.go:283-292 | the index follows the wrap-around rule and the current entry is shown |
| Switches.Switch.Reset | switch.go:253-255 | the index is 0, also for an empty switch; a non-empty switch shows its first entry, an empty one keeps its view |
| Switches.Switch.OnNextButtonClicked | switch.go:313-320 | the index moves to the next entry, wrapping; one call from the old to the new value is recorded if a callback is set |
| Switches.Switch.OnPrevButtonClicked | switch.go:323-329 | the index moves to the previous entry, wrapping; one call is recorded if a callback is set |
| Switches.Switch.SetOnChangeFunc | switch.go:295-297 | whether a callback is set |
| Switches.Switch.Value | switch.go:244-249 | nil exactly when the index is out of range, and otherwise the entry under the index |
| Switches.Switch.FindValue | switch.go:272-277 | nil exactly when the index is out of range, and otherwise the entry at that index |
| Switches.Switch.Find | switch.go:260-267 | the first index holding the value, or -1 when no entry holds it |
| Switches.Switch.Focus | switch.go:209-211 | `focused` is as requested |
| Switches.Switch.Active | switch.go:219-223 | the switch and both its buttons are disabled exactly when made inactive |
| Switches.Switch.SetBackground | switch.go:159-162 | the sprite replaces the background colour |
| Switches.Switch.SetColor | switch.go:166-168 | the main colour is replaced |
| Switches.Switch.Size | switch.go:231-236 | the background sprite's frame when there is one, otherwise the configured size |
| Slots.Dispatch | slot.go:121-149 | only a click inside dispatches, and only to a set handler; right outranks left, and the special key picks the special handler of each |
| Slots.RightOutranksLeft | slot.go:121-149 | with the right button just pressed, no left handler runs |
| Slots.Slot.constructor | slot.go:61-83 | a new slot: nil values, no icon, label or info, colour defaulting to the slot colour, no handlers, not dragged |
| Slots.Slot.Draw | slot.go:113-118 | hit-testing afterwards uses the area drawn in |
| Slots.Slot.Update | slot.go:121-153 | hover follows the pointer, at most one handler call is recorded as `Dispatch` says, and the count label reads back as the number of values |
| Slots.Slot.Pop | slot.go:163-174 | a nil slot returns nil and changes nothing; otherwise the last value is removed and returned, and removing the only value clears the slot |
| Slots.Slot.Drag | slot.go:192-194 | `dragged` is as requested |
| Slots.Slot.SetColor | slot.go:204-206 | the colour is replaced |
| Slots.Slot.SetIcon | slot.go:210-213 | the icon is replaced |
| Slots.Slot.AddValues | slot.go:217-219 | the values are appended in order; the slice stays nil only when nil and nothing is added |
| Slots.Slot.SetValues | slot.go:223-225 | the values are replaced, nil included |
| Slots.Slot.SetLabel | slot.go:228-230 | the label is replaced |
| Slots.Slot.SetInfo | slot.go:234-236 | the info text is replaced |
| Slots.Slot.Clear | slot.go:240-246 | no values (nil), icon, label or info, and not dragged |
| Slots.Slot.SetSpecialKey | slot.go:264-266 | the special key is replaced |
| Slots.Slot.SetOnClickFunc | slot.go:270-290 | exactly the named handler is set or unset; the others are untouched |
| Slots.Slot.Size | slot.go:255-260 | the background sprite's frame when there is one, otherwise the configured size |
| Slots.SlotSwitch | slot.go:88-101 | the two slots exchange their contents |
| Slots.SlotCopy | slot.go:105-110 | the second slot receives the first's contents; the first is unchanged |
| SlotToggleExample.Toggled | example/slot/main.go:112-131 | a slot whose first value is a bool holds exactly the negated bool; any other slot is not toggled |
| SlotToggleExample.ToggleTwice | example/slot/main.go:112-131 | toggling twice gives the original value back |
| SlotToggleExample.OnSlotClicked | example/slot/main.go:112-131 | a toggleable slot holds only the negated value, with no icon, label or info; any other slot is untouched |
| SlotListExample.FirstDragged | example/slotlist/main.go:131-138 | null exactly when no slot is dragged, else a dragged slot of the list |
| SlotListExample.DraggedSlot | example/slotlist/main.go:131-138 | the loop returns the first dragged slot |
| SlotListExample.DragSlot | example/slotlist/main.go:109-118 | an empty slot changes nothing; otherwise the slot is dragged, the previously dragged one is not, and at most one slot stays dragged |
| SlotListExample.DropSlot | example/slotlist/main.go:122-127 | with a dragged slot, it and the target exchange contents; otherwise nothing changes |
| Textedits.Edited | textedit.go:88-96 | Backspace drops the final byte of a non-empty text, then the typed bytes are appended |
| Textedits.BackspaceThenRetype | textedit.go:88-96 | Backspace, then retyping the dropped byte, gives the text back |
| Textedits.Textedit.constructor | textedit.go:50-61 | a new field: empty text, unfocused, enabled, focus colour crimson |
| Textedits.Textedit.Draw | textedit.go:64-66 | hit-testing afterwards uses the area drawn in |
| Textedits.Textedit.Background | textedit.go:64-75 | the focus colour while focused, otherwise the main colour |
| Textedits.Textedit.Update | textedit.go:78-99 | a disabled field changes nothing; otherwise a left press focuses it iff inside, a focused field's text becomes `Edited`, and the input line shows the text |
| Textedits.Textedit.Focus | textedit.go:102-104 | `focused` is as requested |
| Textedits.Textedit.Active | textedit.go:112-114 | an inactive field is disabled |
| Textedits.Textedit.Clear | textedit.go:122-124 | `Text` is then empty |
| Textedits.Textedit.SetText | textedit.go:127-135 | `Text` then returns exactly what was set |
| Textedits.Textedit.SetSize | textedit.go:138-140 | the size is replaced |
| TextLayout.ConcatSnoc | text.go:160-176 | joining pieces distributes over appending a piece |
| TextLayout.ChunksSnoc | text.go:197-215 | a short final chunk after whole chunks is exactly one more chunk |
| TextLayout.SplitSubNLoop | text.go:197-215 | the rune loop of `SplitSubN` computes the chunks of \|n\| runes (`[s]` for n = 0) |
| TextLayout.SplitSubNConcat | text.go:197-215 | the chunks joined give the string back |
| TextLayout.ChunksConcat | text.go:197-215 | chunks of any positive size joined give the string back |
| TextLayout.SplitSubNSizes | text.go:197-215 | no chunks exactly for the empty string; every chunk but the last holds \|n\| runes, and the last between 1 and \|n\| |
| TextLayout.ChunksSizes | text.go:197-215 | the same for chunks of a positive size |
| TextLayout.ByteLen | text.go:192 | a string's UTF-8 byte length is at least its rune count |
| TextLayout.FirstReach | text.go:179-193 | the first prefix end, from a position on, at which the measured prefix reaches the width |
| TextLayout.SegmentOffset | text.go:179-193 | the offset since the last newline: no newline after it up to the position, and a newline at it when one exists |
| TextLayout.BreakPointLoop | text.go:179-193 | the loop computes the break point: the offset in its line of the first rune at which the prefix reaches the width, else the byte length minus one |
| TextLayout.BreakPointWithinLine | text.go:179-193 | for a non-empty line wider than the width, the break point is a rune position inside the line |
| TextLayout.TerminateAll | text.go:165-169 | terminating the pieces keeps their number |
| TextLayout.BreakLineLoop | text.go:160-176 | the loop computes `BreakLine` |
| TextLayout.BreakLineShape | text.go:160-176 | a line that fits (or an unbounded width) is kept whole; a wider one becomes its `SplitSubN` pieces at the break point, each ending in a newline, whose text is the line |
| TextLayout.BreakAtZeroKeepsLine | text.go:160-176 | a break point of 0 keeps the line as one newline-terminated piece |
| TextLayout.Text.constructor | text.go:51-66 | a new text widget: no content, the given width and measurement |
| TextLayout.Text.SetText | text.go:69-78 | the content is the text broken at the maximum width and joined back |
| TextLayout.Text.Clear | text.go:142-146 | the content is empty |
| TextLayout.Text.SetMaxWidth | text.go:87-89 | the maximum width is replaced |
| TextLayout.UnboundedTextKeepsText | text.go:69-78 | without a positive width, `SetText` keeps the text exactly |
| Textboxes.Reversed | textbox.go:213-223 | reversal keeps the length |
| Textboxes.ReversedAppend | textbox.go:213-223 | reversing a concatenation swaps and reverses the parts |
| Textboxes.ReversedTwice | textbox.go:213-223 | reversing twice is the identity |
| Textboxes.BoxLayout | textbox.go:228-244 | the box wraps each line with `BreakLine` at its width, under its font measurement |
| Textboxes.TimesIsProduct | textbox.go:217 | the per-piece height sum is the line height times the piece count |
| Textboxes.Top | textbox.go:180-224 | the cursor line, capped at the last line, is a line or -1 and never below the cursor |
| Textboxes.FirstInRange | textbox.go:180-224 | the top line of the upward walk is in range |
| Textboxes.GatherIsRun | textbox.go:180-224 | the walk collects a contiguous run of lines ending at the start line, each wrapped, top to bottom |
| Textboxes.GatherStopsWhenFull | textbox.go:180-224 | lines above the run are left out only when the run fills the box |
| Textboxes.GatherTakesNoExtra | textbox.go:180-224 | the run's top line went in while the lines below it left room |
| Textboxes.VisibleWindow | textbox.go:180-224 | what the box shows is the wrapped lines from the window's top down to the cursor line, in order |
| Textboxes.WindowFillsBox | textbox.go:180-224 | the window is maximal and minimal: lines above it are dropped only when it fills the box, and its top line was needed |
| Textboxes.WindowHoldsCursor | textbox.go:180-224 | a box with room shows the cursor line whenever the cursor is on a line |
| Textboxes.VisiblePastEnd | textbox.go:180-224 | a cursor past the last line shows the same window as one on the last line |
| Textboxes.VisibleExample | textbox.go:180-224 | three one-piece lines in a box two lines high, cursor at the bottom: the bottom two show |
| Textboxes.Scrolled | textbox.go:95-112 | Down stops at the last line, Up and the up button at the first, the down button one past the last |
| Textboxes.ScrollRunBounds | textbox.go:95-112 | scrolling keeps the cursor between -1 and one past the last line, and only the down button goes past the last |
| Textboxes.ScrollSnoc | textbox.go:95-112 | one more scroll that recomputes the window only when it moves keeps the cursor and window of the longer run |
| Textboxes.ScrollMaybe | textbox.go:95-112 | the same for a scroll that may not happen |
| Textboxes.ScrollRunAppend | textbox.go:95-112 | two runs of scrolls compose |
| Textboxes.ScrollRunStill | textbox.go:95-112 | a run that never moves the cursor leaves it where it was |
| Textboxes.ShownAppend | textbox.go:95-112 | the cursor and the window shown after two runs are those of the combined run |
| Textboxes.FrameBoxHalves | textbox.go:95-112 | a frame taken as the keys, then the scroll buttons as their flags at the start of the frame decide, is the frame `FrameBox` gives |
| Textboxes.AppendReversed | textbox.go:213-223 | the reversing loops append the pieces last first |
| Textboxes.TakeLine | textbox.go:211-217 | taking a line appends its pieces last first and adds the line's height once per piece |
| Textboxes.CollectVisible | textbox.go:199-218 | the upward walk collects exactly the window's pieces, bottom to top |
| Textboxes.GatherStep | textbox.go:204-218 | taking one line keeps the walk's invariant |
| Textboxes.Textbox.constructor | textbox.go:51-77 | a new box: no lines, cursor 0, nothing shown, both buttons in the accent colour with their handlers set |
| Textboxes.Textbox.Draw | textbox.go:80-92 | the box and its up and down buttons keep the areas they were drawn in, which `Update` hit-tests against |
| Textboxes.Textbox.Update | textbox.go:95-112 | the frame `FrameBox` gives: the cursor and window are those of Down, Up, then each scroll button clicked (the window for the final cursor, or untouched when nothing moved), and both scroll buttons' pressed and hovered flags step |
| Textboxes.Textbox.ScrollKeys | textbox.go:97-108 | the key half of `Update` |
| Textboxes.Textbox.ScrollButtons | textbox.go:110-111 | the button half of `Update`: which buttons were clicked, the scrolls they make, and both buttons' new pressed and hovered flags |
| Textboxes.Textbox.ButtonScroll | textbox.go:110-111 | one button's frame: its pressed and hovered flags step, and a click inside an enabled button runs its handler once |
| Textboxes.Textbox.SetSize | textbox.go:115-117 | the size is replaced |
| Textboxes.Textbox.SetText | textbox.go:143-148 | the lines replace the content, the cursor goes to the last line, and the window is recomputed |
| Textboxes.Textbox.AddText | textbox.go:151-155 | one line at the end, the cursor on it, and the window recomputed |
| Textboxes.Textbox.Clear | textbox.go:158-161 | no lines and nothing shown, which is the window of no lines |
| Textboxes.Textbox.String | textbox.go:164-170 | the lines joined with no separator |
| Textboxes.Textbox.ScrollBottom | textbox.go:174-176 | the cursor goes to the last line and the window is not recomputed |
| Textboxes.Textbox.UpdateTextVisibility | textbox.go:180-224 | what is written is the window the lines and cursor call for |
| Textboxes.Textbox.OnButtonUpClicked | textbox.go:274-280 | one step up, a no-op at the first line; the window is recomputed only on a move |
| Textboxes.Textbox.OnButtonDownClicked | textbox.go:283-289 | one step down, a no-op at or past the line count; the window is recomputed only on a move |
| MessageWindows.HandledActsOnce | messagewindow.go:223-234 | a handler run many times in a frame acts as one run: the first dismisses and unfocuses the window |
| MessageWindows.UpdateKeepsDismissal | messagewindow.go:122-145 | one frame never undoes a dismissal, and a window is only accepted as part of being dismissed |
| MessageWindows.RunKeepsDismissal | messagewindow.go:122-145 | the same over any run of frames |
| MessageWindows.UnfocusedIgnoresInput | messagewindow.go:122-145 | an unfocused window with no left press inside it is left exactly as it was |
| MessageWindows.EscapeThenEnterAccepts | messagewindow.go:126-133 | Escape and Enter together on a focused window cancel and then accept it, both callbacks running in that order |
| MessageWindows.Fired | button.go:124-158 | a disabled button fires no callback, an enabled one at most two per frame |
| MessageWindows.NewHandledButton | messagewindow.go:54-82 | a fresh window button with its callback set |
| MessageWindows.MessageWindow.constructor | messagewindow.go:54-97 | a new window is open, unfocused, not dismissed or accepted, enabled; a dialog has a cancel button; the text box holds the message as its one line |
| MessageWindows.MessageWindow.Draw | messagewindow.go:100-119 | the window, its buttons and its text box keep the areas they were drawn in |
| MessageWindows.MessageWindow.Background | messagewindow.go:100-119 | the disable colour while disabled, otherwise the main colour |
| MessageWindows.MessageWindow.UpdatedBy | messagewindow.go:126-144 | the flags after an enabled frame, from the flags before: the keys, the focusing click, then each button's handler as often as the button fires |
| MessageWindows.MessageWindow.Update | messagewindow.go:122-145 | a disabled window and its parts are unchanged; an enabled one's flags are `UpdatedBy` (keys if focused, focusing click, each button's handler as often as it fired), and its text box and buttons go through the frame `FrameParts` gives |
| MessageWindows.MessageWindow.UpdateEnabled | messagewindow.go:126-144 | the enabled half of `Update`: the flags `UpdatedBy` gives, and the parts' frame `FrameParts` |
| MessageWindows.MessageWindow.UpdateParts | messagewindow.go:140-144 | the text box's frame, then the buttons': the parts end as `FrameParts` says and the flags as the buttons' handlers leave them |
| MessageWindows.MessageWindow.UpdateBox | messagewindow.go:140 | the text box goes through its frame (`Textbox.Framed`: cursor, window and scroll buttons), leaving the window and its own buttons alone |
| MessageWindows.MessageWindow.UpdateWindow | messagewindow.go:126-139 | the keys, then the focusing click |
| MessageWindows.MessageWindow.UpdateButtons | messagewindow.go:141-144 | the accept button steps and its handler runs as often as it fired, then the cancel button's; the buttons end as `FrameButtons` says |
| MessageWindows.MessageWindow.ButtonFrame | messagewindow.go:141-144 | one button's frame: its pressed and hovered flags step as `StepButton` says, and its handler runs as often as it fired |
| MessageWindows.MessageWindow.RunHandler | messagewindow.go:141-144 | a handler run `n` times |
| MessageWindows.MessageWindow.Show | messagewindow.go:148-150 | `open` is as requested |
| MessageWindows.MessageWindow.Active | messagewindow.go:153-155 | an inactive window is disabled |
| MessageWindows.MessageWindow.Focus | messagewindow.go:158-160 | `focused` is as requested |
| MessageWindows.MessageWindow.SetOnAcceptFunc | messagewindow.go:212-214 | whether an accept callback is set |
| MessageWindows.MessageWindow.SetOnCancelFunc | messagewindow.go:218-220 | whether a cancel callback is set |
| MessageWindows.MessageWindow.OnAcceptButtonClicked | messagewindow.go:223-227 | accepts only a focused window |
| MessageWindows.MessageWindow.OnCancelButtonClicked | messagewindow.go:230-234 | cancels only a focused window |
| MessageWindows.MessageWindow.Reset | messagewindow.go:237-240 | closed and unfocused, nothing else changed |
| MessageWindows.MessageWindow.Accept | messagewindow.go:243-250 | reset, dismissed, accepted, and the accept callback recorded if set |
| MessageWindows.MessageWindow.Cancel | messagewindow.go:253-260 | reset, dismissed, not accepted, and the cancel callback recorded if set |
| Focusing.Held | mtk.go:80-83 | the registry slot as a set: empty exactly for nil |
| Focusing.FocusedAmongPart | mtk.go:73-78 | the focused widgets among a part are those among the whole that lie in the part |
| Focusing.SetFocus | mtk.go:73-78 | focusing or unfocusing one widget changes the focused set by that widget only |
| Focusing.Focus.constructor | mtk.go:80-83 | a new registry holds nothing |
| Focusing.Focus.Focus | mtk.go:88-97 | the registry holds the new widget, which is focused; the previous holder is unfocused; if only the holder was focused among some widgets, only the new holder is afterwards |
| MessageQueues.RangePass | messagequeue.go:54-69 | the pass as written makes at most one visit per slot of the array it ranges over |
| MessageQueues.PassAsWrittenSkips | messagequeue.go:54-79 | removing a dismissed window skips the next one and visits the new tail twice |
| MessageQueues.PassAsWrittenPanics | messagequeue.go:54-79 | two dismissed windows make the second removal index past the queue |
| MessageQueues.IntendedVisits | messagequeue.go:54-69 | the intended pass visits at most one window per queue slot |
| MessageQueues.Kept | messagequeue.go:54-69 | the kept windows are exactly the undismissed ones |
| MessageQueues.IntendedVisitsExactly | messagequeue.go:54-69 | the intended pass visits exactly the opened windows, each once, and activates exactly the last of the queue |
| MessageQueues.PassIntendedVisitsAll | messagequeue.go:54-69 | on the skipping example, the intended pass visits every window once |
| MessageQueues.KeptAll | messagequeue.go:64-66 | a queue with nothing dismissed keeps every window |
| MessageQueues.RangePassDropsLast | messagequeue.go:64-66 | removing a dismissed last window leaves the array as it was and ends the loop with every other window kept |
| MessageQueues.RangePassAgrees | messagequeue.go:54-69 | from any position, the written loop that has made the intended visits so far ends as the intended pass, when no window before the last is dismissed |
| MessageQueues.PassAsWrittenAgrees | messagequeue.go:54-69 | when no window before the last is dismissed, the pass as written and the intended pass agree: the same visits and the same queue left |
| MessageQueues.KeepUndismissed | messagequeue.go:54-69 | the queue keeps the undismissed windows, in order |
| MessageQueues.Deactivate | messagequeue.go:58-62 | every opened window but the last is disabled |
| MessageQueues.UpdateTail | messagewindow.go:122-145 | the activated, focused last window goes through one frame of `Update`: its flags as `UpdatedBy` says, its parts through `Framed`; the registry's previous holder and the other windows are untouched |
| MessageQueues.DrawWindow | messagequeue.go:45-51 | a window is drawn where its placement puts it |
| MessageQueues.MessageQueue.constructor | messagequeue.go:37-42 | an empty queue on the given registry |
| MessageQueues.MessageQueue.Append | messagequeue.go:72-74 | the window goes at the tail |
| MessageQueues.MessageQueue.Remove | messagequeue.go:77-79 | exactly the element at the index goes; the rest keep their order |
| MessageQueues.MessageQueue.ActivateTail | messagequeue.go:56-59 | the last window is enabled and holds the focus, and the previous holder is unfocused |
| MessageQueues.MessageQueue.VisitTail | messagequeue.go:55-63 | an opened last window is activated, focused and updated (`TailSurfaced`); an unopened one and the registry are untouched (`TailKept`) |
| MessageQueues.MessageQueue.SurfaceTail | messagequeue.go:55-63 | an opened last window is enabled and holds the focus, the previous holder is unfocused, its flags are `UpdatedBy` from the focused flags, and its text box and buttons went through the frame |
| MessageQueues.MessageQueue.Update | messagequeue.go:54-69 | (corrected) every opened window but the last is disabled and gains no focus; an opened last window is enabled and focused, the registry's previous holder is unfocused, and the window's flags, text box and buttons go through one frame; the queue then keeps exactly the undismissed windows, in order |
| MessageQueues.MessageQueue.Prune | messagequeue.go:64-66 | the queue keeps exactly the undismissed windows |
| MessageQueues.MessageQueue.Visit | messagequeue.go:55-63 | the visits of `Update` as `Visited` states them, the queue itself unchanged |
| MessageQueues.MessageQueue.ContainsPosition | messagequeue.go:83-90 | true iff some window's last draw area holds the point |
| MessageQueues.MessageQueue.Draw | messagequeue.go:45-51 | exactly the opened windows are drawn, in queue order, each placed by its size; unopened windows keep their draw areas |

## Left out

- Rendering:
  - Drawing to the screen is left out: sprites, font atlases, text
    alignment and the layout matrices. `Draw` keeps only the area drawn in.
  - Placing a part inside its widget (`MatrixToDrawArea`, `MoveTL` and
    friends) is a parameter.
  - The size tables of mtk.go (`ButtonSize`, `SwitchSize`,
    `MessageWindowSize`, …) and the font set-up are looked up by the caller
    and passed in.
- Labels: button labels, `SetAcceptLabel`/`SetCancelLabel`, the slot
  label's fitting to its width, and the info window are not part of this
  model.
- The global audio player and button click sound (`mtk.Audio()`,
  `SetButtonClickSound`) are passed as parameters. The speaker, the mixer,
  the beep effects and `InitAudio` are left out, as is the audio
  streaming itself: `Play` records the whole-buffer stream it installs.
- The pointer test of the graphics library's `Rect.Contains` is
  included-border containment; the library itself is not part of this
  model.
- Callbacks are left out, because the caller supplies them and may run
  any code. The model records whether each is set and the calls made. A
  callback that changes the widget re-entrantly (for instance removing a
  window from its queue) is not modelled.
- Slices are values. Aliasing between a slice passed in and a slot's or
  switch's own slice is not modelled.
- Text measurement is the `Metrics` functions. Glyph bounds,
  kerning and the `Write`/`Fprintf` path of the text widget are left out,
  as is `Text.SetMaxWidth`'s effect on text already set (the content is
  recomputed only by `SetText`, as in the source).
- The text box writes each visible piece with `fmt.Fprintf`, which reads
  it as a format string, so a `%` in the text is rendered as a formatting
  directive. The model writes the pieces verbatim.
- `Textbox.SetMaxTextWidth` sets the width of an inner text widget that
  the model does not keep; the box wraps at its own width.
- The switch's value sprite is recorded as the picture shown. The
  text-label path keeps the view's string only.
- infowindow.go, window.go, `List`, `SlotList` and the examples other
  than the slot and slot-list handlers are not part of this model.
- `MessageQueues.MessageQueue.Update` requires `CanUpdate`: the queue's
  windows are distinct, and the registry does not hold a button of the
  last window. The source does not check either, but a window shared
  between two slots of the queue, or a registry holding one of a window's
  own buttons, has no well-defined frame in the source either.
- `MessageQueues.MessageQueue.Update` deactivates windows without running
  their `Update`. On a disabled window `Update` changes nothing
  (`MessageWindow.Update`'s first ensures). It also visits the last window
  before the others, an order with the same effect because the visits
  touch disjoint state (see `Visit`).
- `MessageQueues.MessageQueue.Draw` does not require the windows to be
  valid, and states the draw areas of the windows only, not those of their
  parts.
- `Switches.Switch.Update` and `Textboxes.Textbox.Update` require (through
  `Valid`) that the widget's own buttons are not focused. The widget never
  hands them to the focus registry, so Enter never clicks them.
- `Slots.Slot.Pop` requires a non-nil slot to hold a value, because on an
  empty non-nil slice the source indexes at -1 and panics.
- `Buttons.Button.Update` requires a callback when a focused button sees
  Enter, because the source then calls a nil function.
- `Switches.Switch.Update` requires the index to be in range for a
  non-empty switch, which every operation that sets it keeps. A
  precondition on `SetValues`/`SetIntValues` says the new values must
  cover the current index: otherwise `Value` returns nil and the
  source's `updateValueView` dereferences it.
- `MessageWindows.MessageWindow.Update` may change the audio player's
  control, because a clicked button plays its click sound, but does not
  state what the control becomes. `Buttons.Button.Update` states it for
  one button; which of several buttons' sounds is left playing is not
  stated.
- `Switches.Switch.Update` does not state the click sound either, for the
  same reason.
- `Textboxes.Textbox.Update` does not state the click sound either, for the
  same reason.
- `MessageQueues.MessageQueue.Update` does not state the click sound of
  the last window's buttons either.
- `Switches.Switch.ButtonFrame` may change the audio player's control
  through the click sound of its button and does not state what it
  becomes, like the `Update` whose frame it is part of.
- `Textboxes.Textbox.ScrollButtons` may change the audio player's control
  through the click sound of the scroll buttons and does not state what it
  becomes, like the `Update` whose frame it is part of.
- `Textboxes.Textbox.ButtonScroll` may change the audio player's control
  through the click sound of its scroll button and does not state what it
  becomes, like the `Update` whose frame it is part of.
- `MessageWindows.MessageWindow.UpdateEnabled` may change the audio
  player's control through the click sound of the window's buttons and
  does not state what it becomes, like the `Update` whose frame it is part
  of.
- `MessageWindows.MessageWindow.UpdateParts` may change the audio player's
  control through the click sound of the window's buttons and does not
  state what it becomes, like the `Update` whose frame it is part of.
- `MessageWindows.MessageWindow.UpdateBox` may change the audio player's
  control through the click sound of the text box's scroll buttons and
  does not state what it becomes, like the `Update` whose frame it is part
  of.
- `MessageWindows.MessageWindow.UpdateButtons` may change the audio
  player's control through the click sound of the accept and cancel
  buttons and does not state what it becomes, like the `Update` whose
  frame it is part of.
- `MessageWindows.MessageWindow.ButtonFrame` may change the audio player's
  control through the click sound of its button and does not state what it
  becomes, like the `Update` whose frame it is part of.
- `MessageQueues.UpdateTail` may change the audio player's control through
  the click sound of the last window's buttons and does not state what it
  becomes, like the `Update` whose frame it is part of.
- `MessageQueues.MessageQueue.VisitTail` may change the audio player's
  control through the click sound of the last window's buttons and does
  not state what it becomes, like the `Update` whose frame it is part of.
- `MessageQueues.MessageQueue.SurfaceTail` may change the audio player's
  control through the click sound of the last window's buttons and does
  not state what it becomes, like the `Update` whose frame it is part of.
- `MessageQueues.MessageQueue.Visit` may change the audio player's control
  through the click sound of the last window's buttons and does not state
  what it becomes, like the `Update` whose frame it is part of.
- `MessageQueues.MessageQueue.Remove` requires the index to be in the
  queue, because the source's slice expression panics on an index outside
  it (messagequeue.go:78); the panic is not modelled.
- `Switches.Switch.SetIntValues` requires `min <= max`, because the
  source's `make` panics on the negative length `max - min` (switch.go:201);
  the panic is not modelled.
- `Textboxes.Textbox.UpdateTextVisibility` adds up and compares heights as
  exact reals. The source adds `float64` heights, one line at a time, and
  tests the sum against the box height (textbox.go:208, 217). When the sum
  lands on the box height, rounding may stop the walk one line
  differently; that rounding is not modelled.
- `Textboxes.TakeLine` computes a line's height as the exact product of the
  piece height and the piece count. The source forms the same product in
  `float64` (textbox.go:217); its rounding is not modelled.

- `TextLayout.SplitSubN`, `TextLayout.BreakPoint` and `TextLayout.ByteLen`
  take strings to be valid UTF-8, as sequences of characters. Go's
  `bytes.Runes` and `range` replace each invalid byte with U+FFFD, which
  `string(r)` writes back as three bytes, while `len` counts the raw bytes
  (text.go:182, 192, 203). So on invalid input the source's `SplitSubN`
  changes the text and its byte lengths differ from the model's, which
  cannot represent such strings.
- `TextLayout.SplitSubNConcat`, `TextLayout.ChunksConcat` and
  `TextLayout.SplitSubNLoop` hold for the source on valid UTF-8 only, for
  the same reason.
- `TextLayout.ByteLen` states only the lower bound on the UTF-8 length
  that the break-point rule needs.

## Findings

| source | as written | input that shows it | evidently intended | confidence | as-written member | corrected member |
|---|---|---|---|---|---|---|
| switch.go:200-206 | `SetIntValues` makes a slice of `max - min` entries and writes entry `i` for `i` from `min` to `max - 1`, so it indexes the slice by value | `SetIntValues(1, 3)`: the slice has 2 entries and the write at index 2 is out of range | the entries `min` … `max - 1` at indexes 0 … `max - min - 1` | high, not executed | Switches.IntValuesAsWritten | Switches.Switch.SetIntValues |
| messagequeue.go:54-69 | `Update` ranges over the queue while `Remove` shifts it down in place, so the element after a removed one is skipped, the old last slot is visited again, and a later removal can index past the shortened queue | queue [1, 2, 3] with 1 dismissed: 2 is never visited and 3 is visited twice; queue [1, 2] with both dismissed: the second removal panics | every window visited once, the last one activated, then the dismissed ones removed | high, not executed | MessageQueues.PassAsWrittenSkips | MessageQueues.MessageQueue.Update |
