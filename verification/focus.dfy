/** The focus registry: moving the focus unfocuses the previous holder
    before focusing the new one, so widgets that take focus only through
    one registry have at most one focused among them. */
module Focusing {
  import opened Values
  import Buttons
  import Switches
  import Textedits
  import MessageWindows

  /** A widget that can take focus (the `Focuser` interface). */
  datatype Focuser =
    | ButtonFocus(button: Buttons.Button)
    | SwitchFocus(switch: Switches.Switch)
    | TexteditFocus(edit: Textedits.Textedit)
    | WindowFocus(window: MessageWindows.MessageWindow)

  /** The widget objects behind some focusers, one set per widget class. */
  function ButtonsOf(es: set<Focuser>): set<Buttons.Button> {
    set e | e in es && e.ButtonFocus? :: e.button
  }

  function SwitchesOf(es: set<Focuser>): set<Switches.Switch> {
    set e | e in es && e.SwitchFocus? :: e.switch
  }

  function EditsOf(es: set<Focuser>): set<Textedits.Textedit> {
    set e | e in es && e.TexteditFocus? :: e.edit
  }

  function WindowsOf(es: set<Focuser>): set<MessageWindows.MessageWindow> {
    set e | e in es && e.WindowFocus? :: e.window
  }

  /** The widget object behind an optional focuser, as a set (empty for
      None or another widget class). */
  function ButtonOf(e: Option<Focuser>): set<Buttons.Button> {
    if e.Some? && e.value.ButtonFocus? then {e.value.button} else {}
  }

  function SwitchOf(e: Option<Focuser>): set<Switches.Switch> {
    if e.Some? && e.value.SwitchFocus? then {e.value.switch} else {}
  }

  function EditOf(e: Option<Focuser>): set<Textedits.Textedit> {
    if e.Some? && e.value.TexteditFocus? then {e.value.edit} else {}
  }

  function WindowOf(e: Option<Focuser>): set<MessageWindows.MessageWindow> {
    if e.Some? && e.value.WindowFocus? then {e.value.window} else {}
  }

  /** The focuser held by a registry slot, as a set. */
  function Held(e: Option<Focuser>): (r: set<Focuser>)
    ensures e.None? <==> r == {}
    ensures e.Some? ==> r == {e.value}
  {
    if e.Some? then {e.value} else {}
  }

  /** `Focused()`, dispatched on the widget. */
  ghost predicate IsFocused(e: Focuser)
    reads ButtonOf(Some(e))`focused, SwitchOf(Some(e))`focused, EditOf(Some(e))`focused, WindowOf(Some(e))`focused
  {
    match e
    case ButtonFocus(b) => b.focused
    case SwitchFocus(s) => s.focused
    case TexteditFocus(t) => t.focused
    case WindowFocus(w) => w.focused
  }

  /** The focused widgets among `ws`. */
  ghost function FocusedAmong(ws: set<Focuser>): set<Focuser>
    reads ButtonsOf(ws)`focused, SwitchesOf(ws)`focused, EditsOf(ws)`focused, WindowsOf(ws)`focused
  {
    set w | w in ws && (assert ButtonOf(Some(w)) <= ButtonsOf(ws) && SwitchOf(Some(w)) <= SwitchesOf(ws)
                          && EditOf(Some(w)) <= EditsOf(ws) && WindowOf(Some(w)) <= WindowsOf(ws);
                        IsFocused(w))
  }

  /** The focused widgets among part of a set are those among the whole
      that lie in the part. */
  lemma FocusedAmongPart(ws: set<Focuser>, all: set<Focuser>)
    requires ws <= all
    ensures FocusedAmong(ws) == FocusedAmong(all) * ws
  {
  }

  /** `Focus(bool)`, dispatched on the widget: among any widgets `ws`, the
      focused ones gain or lose `e` and no other. */
  method SetFocus(e: Focuser, focus: bool, ghost ws: set<Focuser>)
    modifies ButtonOf(Some(e))`focused, SwitchOf(Some(e))`focused, EditOf(Some(e))`focused, WindowOf(Some(e))`focused
    ensures IsFocused(e) == focus
    ensures FocusedAmong(ws) == if focus then old(FocusedAmong(ws)) + ({e} * ws) else old(FocusedAmong(ws)) - {e}
  {
    match e {
      case ButtonFocus(b) =>
        b.Focus(focus);
      case SwitchFocus(s) =>
        s.Focus(focus);
      case TexteditFocus(t) =>
        t.Focus(focus);
      case WindowFocus(w) =>
        w.Focus(focus);
    }
    forall w | w in ws && w != e
      ensures IsFocused(w) == old(IsFocused(w))
    {
    }
  }

  class Focus {
    /** The focused element; None for nil. */
    var element: Option<Focuser>

    constructor ()
      ensures element == None
    {
      element := None;
    }

    /** `Focus`: the previous holder (if any) is unfocused, then `e` (if
        not nil) is recorded and focused. Among any widgets `ws`, the
        focused ones lose the previous holder and gain `e`; so if only the
        holder was focused among them before, only the new holder is after.
        `ws` is a ghost argument that names the widgets the property is
        about. */
    method Focus(e: Option<Focuser>, ghost ws: set<Focuser>)
      modifies this`element
      modifies ButtonOf(element)`focused, SwitchOf(element)`focused, EditOf(element)`focused, WindowOf(element)`focused
      modifies ButtonOf(e)`focused, SwitchOf(e)`focused, EditOf(e)`focused, WindowOf(e)`focused
      ensures element == e
      ensures e.Some? ==> IsFocused(e.value)
      ensures old(element).Some? && old(element) != e ==> !IsFocused(old(element).value)
      ensures FocusedAmong(ws) == (old(FocusedAmong(ws)) - Held(old(element))) + (Held(e) * ws)
      ensures old(FocusedAmong(ws)) <= Held(old(element)) ==> FocusedAmong(ws) <= Held(element)
    {
      ghost var all := ws + Held(element) + Held(e);
      FocusedAmongPart(ws, all);
      ghost var before := FocusedAmong(all);
      if element.Some? {
        SetFocus(element.value, false, all);
      }
      assert FocusedAmong(all) == before - Held(old(element));
      element := e;
      if e.Some? {
        SetFocus(e.value, true, all);
      }
      assert FocusedAmong(all) == (before - Held(old(element))) + (Held(e) * all);
      FocusedAmongPart(ws, all);
    }
  }
}
