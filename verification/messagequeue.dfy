/** The message queue: message windows in order; each frame the last one
    is activated and focused, the others are deactivated, and dismissed
    ones leave the queue. */
module MessageQueues {
  import opened Values
  import opened Input
  import Audio
  import Buttons
  import Textboxes
  import MessageWindows
  import Focusing

  type Window = MessageWindows.MessageWindow

  // ---------------------------------------------------------------------
  // The `Update` pass, on values
  // ---------------------------------------------------------------------

  /** One visit of an opened message by the pass: the message, and whether
      it was activated (true) or deactivated (false). */
  datatype Visit<T> = Visit(item: T, activated: bool)

  /** The outcome of a pass: the visits made, then either the queue left
      behind or a runtime panic. */
  datatype Pass<T> = Panicked(visits: seq<Visit<T>>) | Finished(visits: seq<Visit<T>>, queue: seq<T>)

  /** The pass as the source writes it. The loop ranges over the slice as
      it was when the loop began: `arr` is that slice's backing array, and
      `len` the current length of the queue, which `Remove` shortens while
      shifting the rest of the array down in place. `open(m)` says whether
      a message is opened when visited and `dismissed(m)` whether it is
      dismissed when checked after its visit. Removing at an index past the
      current end panics. */
  function RangePass<T>(arr: seq<T>, len: nat, i: nat, open: T -> bool, dismissed: T -> bool,
                        visits: seq<Visit<T>>): (p: Pass<T>)
    requires len <= |arr| && i <= |arr|
    ensures |p.visits| <= |visits| + (|arr| - i)
    decreases |arr| - i
  {
    if i == |arr| then Finished(visits, arr[..len])
    else
      var m := arr[i];
      var vs := if open(m) then visits + [Visit(m, i == len - 1)] else visits;
      if !dismissed(m) then RangePass(arr, len, i + 1, open, dismissed, vs)
      else if i + 1 > len then Panicked(vs)
      else RangePass(arr[..i] + arr[i + 1..len] + arr[len - 1..], len - 1, i + 1, open, dismissed, vs)
  }

  function PassAsWritten<T>(q: seq<T>, open: T -> bool, dismissed: T -> bool): Pass<T> {
    RangePass(q, |q|, 0, open, dismissed, [])
  }

  /** With the first of three messages dismissed, the second is never
      visited, and the third is visited twice: activated as the tail, then
      deactivated again by the stale last slot of the array. */
  lemma PassAsWrittenSkips()
    ensures PassAsWritten([1, 2, 3], m => true, m => m == 1)
         == Finished([Visit(1, false), Visit(3, true), Visit(3, false)], [2, 3])
  {
    var open: int -> bool := m => true;
    var dismissed: int -> bool := m => m == 1;
    assert [1, 2, 3][..0] + [1, 2, 3][1..3] + [1, 2, 3][2..] == [2, 3, 3];
    calc {
      PassAsWritten([1, 2, 3], open, dismissed);
      RangePass([1, 2, 3], 3, 0, open, dismissed, []);
      RangePass([2, 3, 3], 2, 1, open, dismissed, [Visit(1, false)]);
      RangePass([2, 3, 3], 2, 2, open, dismissed, [Visit(1, false), Visit(3, true)]);
      RangePass([2, 3, 3], 2, 3, open, dismissed, [Visit(1, false), Visit(3, true), Visit(3, false)]);
    }
    assert [2, 3, 3][..2] == [2, 3];
  }

  /** With both of two messages dismissed, the second removal indexes past
      the shortened queue and the pass panics. */
  lemma PassAsWrittenPanics()
    ensures PassAsWritten([1, 2], m => true, m => true).Panicked?
  {
    var open: int -> bool := m => true;
    var dismissed: int -> bool := m => true;
    assert [1, 2][..0] + [1, 2][1..2] + [1, 2][1..] == [2, 2];
    calc {
      PassAsWritten([1, 2], open, dismissed);
      RangePass([1, 2], 2, 0, open, dismissed, []);
      RangePass([2, 2], 1, 1, open, dismissed, [Visit(1, false)]);
    }
  }

  /** The visits the pass is meant to make: every opened message once, in
      order, only the last one of the queue activated. */
  function IntendedVisits<T>(q: seq<T>, n: nat, open: T -> bool): (vs: seq<Visit<T>>)
    requires n <= |q|
    ensures |vs| <= n
    decreases n
  {
    if n == 0 then []
    else IntendedVisits(q, n - 1, open) + (if open(q[n - 1]) then [Visit(q[n - 1], n == |q|)] else [])
  }

  /** The messages that are not dismissed, in queue order. */
  function Kept<T>(q: seq<T>, dismissed: T -> bool): (r: seq<T>)
    ensures |r| <= |q|
    ensures forall k :: 0 <= k < |r| ==> r[k] in q && !dismissed(r[k])
    ensures forall k :: 0 <= k < |q| && !dismissed(q[k]) ==> q[k] in r
    decreases |q|
  {
    if q == [] then [] else Kept(q[..|q| - 1], dismissed) + (if dismissed(q[|q| - 1]) then [] else [q[|q| - 1]])
  }

  /** The pass the source means: no panic, the visits above, the dismissed
      messages removed and the rest kept in order. */
  function PassIntended<T>(q: seq<T>, open: T -> bool, dismissed: T -> bool): Pass<T> {
    Finished(IntendedVisits(q, |q|, open), Kept(q, dismissed))
  }

  /** The intended pass visits exactly the opened messages, each where it
      stands in the queue, and activates a message exactly when it is the
      last of the queue. */
  lemma {:induction false} IntendedVisitsExactly<T>(q: seq<T>, n: nat, open: T -> bool, v: Visit<T>)
    requires n <= |q|
    ensures v in IntendedVisits(q, n, open) <==>
      exists j :: 0 <= j < n && open(q[j]) && v == Visit(q[j], j == |q| - 1)
    decreases n
  {
    if n > 0 {
      IntendedVisitsExactly(q, n - 1, open, v);
      if v in IntendedVisits(q, n, open) && v !in IntendedVisits(q, n - 1, open) {
        assert v == Visit(q[n - 1], n - 1 == |q| - 1);
      }
    }
  }

  /** On the first example the intended pass visits every message once and
      activates the tail, where the written one skips and repeats. */
  lemma PassIntendedVisitsAll()
    ensures PassIntended([1, 2, 3], m => true, m => m == 1)
         == Finished([Visit(1, false), Visit(2, false), Visit(3, true)], [2, 3])
  {
    var open: int -> bool := m => true;
    var dismissed: int -> bool := m => m == 1;
    assert [1, 2, 3][..2] == [1, 2] && [1, 2][..1] == [1] && [1][..0] == [];
  }

  /** A queue none of whose messages is dismissed keeps them all. */
  lemma {:induction false} KeptAll<T>(q: seq<T>, dismissed: T -> bool)
    requires forall k :: 0 <= k < |q| ==> !dismissed(q[k])
    ensures Kept(q, dismissed) == q
    decreases |q|
  {
    if q != [] {
      KeptAll(q[..|q| - 1], dismissed);
      assert q[..|q| - 1] + [q[|q| - 1]] == q;
    }
  }

  /** The written loop at the last message of a queue in which only that
      one is dismissed: its removal leaves the array as it was and ends the
      loop with the queue one shorter, which keeps every other message. */
  lemma RangePassDropsLast<T>(q: seq<T>, open: T -> bool, dismissed: T -> bool, visits: seq<Visit<T>>)
    requires q != [] && dismissed(q[|q| - 1])
    requires forall j :: 0 <= j < |q| - 1 ==> !dismissed(q[j])
    ensures RangePass(q, |q|, |q| - 1, open, dismissed, visits)
         == Finished(if open(q[|q| - 1]) then visits + [Visit(q[|q| - 1], true)] else visits, Kept(q, dismissed))
  {
    var n := |q|;
    assert q[n..n] == [] && q[n - 1..] == [q[n - 1]];
    assert q[..n - 1] + q[n..n] + q[n - 1..] == q;
    KeptAll(q[..n - 1], dismissed);
  }

  /** From any position `i` of a queue in which no message before the last
      is dismissed, the written loop, having made the intended visits of
      the first `i` messages, ends as the intended pass. */
  lemma {:induction false} RangePassAgrees<T>(q: seq<T>, i: nat, open: T -> bool, dismissed: T -> bool)
    requires i <= |q|
    requires forall j :: 0 <= j < |q| - 1 ==> !dismissed(q[j])
    requires i == |q| && q != [] ==> !dismissed(q[|q| - 1])
    ensures RangePass(q, |q|, i, open, dismissed, IntendedVisits(q, i, open)) == PassIntended(q, open, dismissed)
    decreases |q| - i
  {
    var n := |q|;
    if i == n {
      KeptAll(q, dismissed);
      assert q[..n] == q;
    } else {
      var vs := if open(q[i]) then IntendedVisits(q, i, open) + [Visit(q[i], i == n - 1)] else IntendedVisits(q, i, open);
      assert vs == IntendedVisits(q, i + 1, open);
      if !dismissed(q[i]) {
        RangePassAgrees(q, i + 1, open, dismissed);
        assert RangePass(q, n, i, open, dismissed, IntendedVisits(q, i, open))
            == RangePass(q, n, i + 1, open, dismissed, vs);
      } else {
        RangePassDropsLast(q, open, dismissed, IntendedVisits(q, i, open));
      }
    }
  }

  /** Where the source is right: when no message before the last is
      dismissed, the pass as written and the intended pass agree. */
  lemma PassAsWrittenAgrees<T>(q: seq<T>, open: T -> bool, dismissed: T -> bool)
    requires forall j :: 0 <= j < |q| - 1 ==> !dismissed(q[j])
    ensures PassAsWritten(q, open, dismissed) == PassIntended(q, open, dismissed)
  {
    RangePassAgrees(q, 0, open, dismissed);
  }

  // ---------------------------------------------------------------------
  // The queue of message windows
  // ---------------------------------------------------------------------

  /** Whether all elements of a sequence are distinct objects. */
  predicate Distinct(q: seq<Window>) {
    forall a, b :: 0 <= a < b < |q| ==> q[a] != q[b]
  }

  function Windows(q: seq<Window>): set<Window> {
    set m | m in q
  }

  function BoxesOf(q: seq<Window>): set<Textboxes.Textbox> {
    set m | m in q :: m.textbox
  }

  /** Every button of every window in `q`: the accept buttons, the cancel
      buttons, and the scroll buttons of the text boxes. */
  function PartsOf(q: seq<Window>): set<Buttons.Button?> {
    (set m | m in q :: m.acceptButton)
    + (set m | m in q :: m.cancelButton)
    + (set m | m in q :: m.textbox.upButton)
    + (set m | m in q :: m.textbox.downButton)
  }

  /** The opened windows of `q`, in order. */
  ghost function OpenOnes(q: seq<Window>): seq<Window>
    reads Windows(q)`open
    decreases |q|
  {
    if q == [] then []
    else OpenOnes(q[..|q| - 1]) + (if q[|q| - 1].open then [q[|q| - 1]] else [])
  }

  /** The windows of `q` that are not dismissed, in order. */
  ghost function Undismissed(q: seq<Window>): seq<Window>
    reads Windows(q)`dismissed
    decreases |q|
  {
    if q == [] then []
    else Undismissed(q[..|q| - 1]) + (if q[|q| - 1].dismissed then [] else [q[|q| - 1]])
  }

  /** The windows of `q` that are not dismissed, in order, computed the
      way the corrected pass keeps them. */
  method KeepUndismissed(q: seq<Window>) returns (kept: seq<Window>)
    ensures kept == Undismissed(q)
  {
    kept := [];
    for i := 0 to |q|
      invariant kept == Undismissed(q[..i])
    {
      assert q[..i + 1][..i] == q[..i];
      if !q[i].dismissed {
        kept := kept + [q[i]];
      }
    }
    assert q[..|q|] == q;
  }

  /** Every opened window among the first `k` of `q` is deactivated. Their
      `Update` is not repeated here: on a disabled window it changes
      nothing (see `MessageWindow.Update`). */
  method Deactivate(q: seq<Window>, k: nat)
    requires k <= |q|
    modifies Windows(q[..k])`disabled
    ensures forall j :: 0 <= j < k ==> q[j].disabled == (old(q[j].open) || old(q[j].disabled))
  {
    for i := 0 to k
      invariant forall j :: 0 <= j < i ==> q[j].disabled == (old(q[j].open) || old(q[j].disabled))
      invariant forall j :: 0 <= j < k && !q[j].open ==> q[j].disabled == old(q[j].disabled)
    {
      if q[i].open {
        q[i].Active(false);
      }
    }
  }

  /** Window `m` went, from the previous state to this one, through one
      frame as the activated, focused last window of the queue: its flags
      are what `UpdatedBy` gives from its flags before, with the focus set. */
  twostate predicate Surfacing(m: Window, f: Frame)
    reads m`open, m`focused, m`dismissed, m`accepted, m`notices
  {
    m.State() == old(m.UpdatedBy(m.State().(focused := true), f))
  }

  /** The last window of `q`, as a set (empty for an empty queue). */
  function Last(q: seq<Window>): set<Window> {
    if q == [] then {} else {q[|q| - 1]}
  }


  /** Every button of the last window of `q`, its text box's included. */
  function LastParts(q: seq<Window>): set<Buttons.Button> {
    if q == [] then {} else q[|q| - 1].Parts()
  }

  /** The text box of the last window of `q`, as a set. */
  function LastBox(q: seq<Window>): set<Textboxes.Textbox> {
    if q == [] then {} else {q[|q| - 1].textbox}
  }

  /** The last window `t` went through one frame `f` of `Update` as the
      activated, focused last window of the queue, the registry `focus`
      having held `prev` before: `t` is enabled and holds the focus, its
      flags are `Surfacing`, its parts went through the frame, and `prev`,
      if another widget, is unfocused. */
  twostate predicate TailSurfaced(t: Window, focus: Focusing.Focus, f: Frame, prev: Option<Focusing.Focuser>)
    reads t`open, t`focused, t`dismissed, t`accepted, t`notices, t`disabled, focus`element
    reads t.Parts()`pressed, t.Parts()`hovered, t.textbox`startID, t.textbox`rendered
    reads Focusing.ButtonOf(prev)`focused, Focusing.SwitchOf(prev)`focused
    reads Focusing.EditOf(prev)`focused, Focusing.WindowOf(prev)`focused
  {
    !t.disabled && focus.element == Some(Focusing.WindowFocus(t)) && Surfacing(t, f) && t.Framed(f)
    && (prev.Some? && prev != Some(Focusing.WindowFocus(t)) ==> !Focusing.IsFocused(prev.value))
  }

  /** The last window `t`, not opened, and the registry `focus` are as they
      were: flags, enabledness, parts and holder. */
  twostate predicate TailKept(t: Window, focus: Focusing.Focus)
    reads t`open, t`focused, t`dismissed, t`accepted, t`notices, t`disabled, focus`element
    reads t.Parts()`pressed, t.Parts()`hovered, t.textbox`startID, t.textbox`rendered
  {
    t.State() == old(t.State()) && t.disabled == old(t.disabled) && focus.element == old(focus.element)
    && t.PartsKept()
  }

  /** The visit of the last window `t` in one `Update`: `TailSurfaced` if
      it was opened, `TailKept` otherwise. */
  twostate predicate TailVisited(t: Window, focus: Focusing.Focus, f: Frame, prev: Option<Focusing.Focuser>)
    reads t`open, t`focused, t`dismissed, t`accepted, t`notices, t`disabled, focus`element
    reads t.Parts()`pressed, t.Parts()`hovered, t.textbox`startID, t.textbox`rendered
    reads Focusing.ButtonOf(prev)`focused, Focusing.SwitchOf(prev)`focused
    reads Focusing.EditOf(prev)`focused, Focusing.WindowOf(prev)`focused
  {
    if old(t.open) then TailSurfaced(t, focus, f, prev) else TailKept(t, focus)
  }

  /** The windows of `q` went, from the previous state to this one, through
      the visits of one `Update` with registry `focus`, whose holder before
      was `prev`: every window but the last is disabled if it was opened
      and gains no focus, and the last one went through `TailVisited`. */
  twostate predicate Visited(q: seq<Window>, focus: Focusing.Focus, f: Frame, prev: Option<Focusing.Focuser>)
    reads Windows(q)`disabled, Windows(q)`focused, focus`element
    reads Last(q)`open, Last(q)`dismissed, Last(q)`accepted, Last(q)`notices
    reads LastParts(q)`pressed, LastParts(q)`hovered, LastBox(q)`startID, LastBox(q)`rendered
    reads Focusing.ButtonOf(prev)`focused, Focusing.SwitchOf(prev)`focused
    reads Focusing.EditOf(prev)`focused, Focusing.WindowOf(prev)`focused
  {
    (forall j :: 0 <= j < |q| - 1 ==>
       q[j].disabled == (old(q[j].open) || old(q[j].disabled)) && (q[j].focused ==> old(q[j].focused)))
    && (q != [] ==> TailVisited(q[|q| - 1], focus, f, prev))
  }

  /** The `Update` of the activated, focused last window, stated as the
      queue uses it: the window stays valid, its flags are `Surfacing` and
      its parts went through the frame. */
  method UpdateTail(m: Window, f: Frame, audio: Audio.AudioPlayer?, ghost prev: Option<Focusing.Focuser>,
                    ghost others: seq<Window>)
    requires m.Valid() && !m.disabled && m.focused
    requires prev.Some? && prev.value.ButtonFocus? ==> prev.value.button !in m.Parts()
    modifies m`open, m`focused, m`dismissed, m`accepted, m`notices
    modifies m.textbox`startID, m.textbox`rendered, m.Parts()`pressed, m.Parts()`hovered
    modifies (if audio == null then {} else {audio})`control
    ensures m.Valid() && !m.disabled
    ensures m.State() == old(m.UpdatedBy(m.State(), f))
    ensures m.Framed(f)
    ensures prev.Some? && prev != Some(Focusing.WindowFocus(m)) ==>
      Focusing.IsFocused(prev.value) == old(Focusing.IsFocused(prev.value))
    ensures forall j :: 0 <= j < |others| && others[j] != m ==>
      others[j].open == old(others[j].open) && others[j].disabled == old(others[j].disabled)
      && (others[j].focused ==> old(others[j].focused))
  {
    m.Update(f, audio);
    if prev.Some? && prev != Some(Focusing.WindowFocus(m)) {
      match prev.value {
        case WindowFocus(w) =>
          assert w.focused == old(w.focused);
        case ButtonFocus(b) =>
          assert b.focused == old(b.focused);
        case SwitchFocus(sw) =>
        case TexteditFocus(t) =>
      }
    }
  }

  /** Where `Draw` puts a window and its parts, given the window's size. */
  datatype Placement = Placement(area: Rect, acceptArea: Rect, cancelArea: Rect, boxArea: Rect, upArea: Rect, downArea: Rect)

  /** One window drawn where `place` puts a window of its size. */
  method DrawWindow(m: Window, place: (real, real) -> Placement)
    modifies m`drawArea, m.acceptButton`drawArea, m.CancelSet()`drawArea, m.textbox`drawArea
    modifies m.textbox.upButton`drawArea, m.textbox.downButton`drawArea
    ensures m.drawArea == place(m.sizeW, m.sizeH).area
  {
    var p := place(m.sizeW, m.sizeH);
    m.Draw(p.area, p.acceptArea, p.cancelArea, p.boxArea, p.upArea, p.downArea);
  }

  class MessageQueue {
    var queue: seq<Window>
    const focus: Focusing.Focus

    /** The last window of the queue, its text box and its buttons, as
        sets (empty for an empty queue). */
    function Tail(): set<Window>
      reads this`queue
    {
      if queue == [] then {} else {queue[|queue| - 1]}
    }

    function TailBox(): set<Textboxes.Textbox>
      reads this`queue
    {
      if queue == [] then {} else {queue[|queue| - 1].textbox}
    }

    function TailParts(): set<Buttons.Button>
      reads this`queue
    {
      if queue == [] then {} else queue[|queue| - 1].Parts()
    }

    /** What `Update` relies on: the windows are distinct, and the last one
        is valid and none of its buttons is held by the registry (a
        window's buttons are private to it). */
    ghost predicate CanUpdate()
      reads this`queue, focus`element, TailParts()`hasOnClick, TailParts()`focused
    {
      Distinct(queue)
      && (queue != [] ==>
            var t := queue[|queue| - 1];
            t.Valid()
            && (focus.element.Some? && focus.element.value.ButtonFocus? ==> focus.element.value.button !in t.Parts()))
    }

    /** `NewMessageQueue`. */
    constructor (f: Focusing.Focus)
      ensures queue == [] && focus == f
    {
      queue := [];
      focus := f;
    }

    /** `Append`: at the tail (the end drawn last and activated). */
    method Append(m: Window)
      modifies this`queue
      ensures queue == old(queue) + [m]
    {
      queue := queue + [m];
    }

    /** `Remove`: exactly element `i` goes; the rest keep their order. An
        index outside the queue makes the source panic. */
    method Remove(i: int)
      requires 0 <= i < |queue|
      modifies this`queue
      ensures queue == old(queue[..i]) + old(queue[i + 1..])
      ensures |queue| == |old(queue)| - 1
      ensures multiset(queue) + multiset{old(queue[i])} == multiset(old(queue))
    {
      assert queue == queue[..i] + [queue[i]] + queue[i + 1..];
      queue := queue[..i] + queue[i + 1..];
    }

    /** The last window of the queue, opened, is activated and takes the
        focus from the registry's previous holder. */
    method ActivateTail(m: Window, ghost others: seq<Window>)
      requires m.Valid()
      requires focus.element.Some? && focus.element.value.ButtonFocus? ==> focus.element.value.button !in m.Parts()
      modifies m`disabled, focus`element
      modifies Focusing.ButtonOf(focus.element)`focused
      modifies Focusing.SwitchOf(focus.element)`focused
      modifies Focusing.EditOf(focus.element)`focused
      modifies Focusing.WindowOf(focus.element)`focused
      modifies m`focused
      ensures m.Valid()
      ensures !m.disabled && focus.element == Some(Focusing.WindowFocus(m))
      ensures m.State() == old(m.State()).(focused := true)
      ensures old(focus.element).Some? && old(focus.element) != Some(Focusing.WindowFocus(m))
        ==> !Focusing.IsFocused(old(focus.element).value)
      ensures unchanged(m.acceptButton, m.textbox, m.textbox.upButton, m.textbox.downButton)
      ensures unchanged(m.CancelSet()) && unchanged(m`drawArea, m`hasOnAccept, m`hasOnCancel)
      ensures forall j :: 0 <= j < |others| && others[j] != m ==>
        others[j].open == old(others[j].open) && others[j].disabled == old(others[j].disabled)
        && (others[j].focused ==> old(others[j].focused))
    {
      m.Active(true);
      ghost var prev := focus.element;
      focus.Focus(Some(Focusing.WindowFocus(m)), {});
      assert Focusing.IsFocused(Focusing.WindowFocus(m));
    }

    /** One visit of the last window of the queue: an opened one is
        activated and focused, then runs its `Update`. */
    method VisitTail(m: Window, f: Frame, audio: Audio.AudioPlayer?, ghost others: seq<Window>)
      requires m.Valid()
      requires focus.element.Some? && focus.element.value.ButtonFocus? ==> focus.element.value.button !in m.Parts()
      modifies m`disabled, m`open, m`focused, m`dismissed, m`accepted, m`notices
      modifies m.textbox`startID, m.textbox`rendered, m.Parts()`pressed, m.Parts()`hovered
      modifies (if audio == null then {} else {audio})`control
      modifies focus`element
      modifies Focusing.ButtonOf(focus.element)`focused
      modifies Focusing.SwitchOf(focus.element)`focused
      modifies Focusing.EditOf(focus.element)`focused
      modifies Focusing.WindowOf(focus.element)`focused
      ensures m.Valid()
      ensures TailVisited(m, focus, f, old(focus.element))
      ensures !old(m.open) ==> unchanged(Focusing.WindowOf(focus.element))
      ensures forall j :: 0 <= j < |others| && others[j] != m ==>
        others[j].open == old(others[j].open) && others[j].disabled == old(others[j].disabled)
        && (others[j].focused ==> old(others[j].focused))
    {
      if m.open {
        SurfaceTail(m, f, audio, others);
      }
    }

    /** The visit of an opened last window: activated and focused, then
        its `Update`. */
    method SurfaceTail(m: Window, f: Frame, audio: Audio.AudioPlayer?, ghost others: seq<Window>)
      requires m.Valid()
      requires focus.element.Some? && focus.element.value.ButtonFocus? ==> focus.element.value.button !in m.Parts()
      modifies m`disabled, m`open, m`focused, m`dismissed, m`accepted, m`notices
      modifies m.textbox`startID, m.textbox`rendered, m.Parts()`pressed, m.Parts()`hovered
      modifies (if audio == null then {} else {audio})`control
      modifies focus`element
      modifies Focusing.ButtonOf(focus.element)`focused
      modifies Focusing.SwitchOf(focus.element)`focused
      modifies Focusing.EditOf(focus.element)`focused
      modifies Focusing.WindowOf(focus.element)`focused
      ensures m.Valid()
      ensures TailSurfaced(m, focus, f, old(focus.element))
      ensures forall j :: 0 <= j < |others| && others[j] != m ==>
        others[j].open == old(others[j].open) && others[j].disabled == old(others[j].disabled)
        && (others[j].focused ==> old(others[j].focused))
    {
      ghost var flags := m.UpdatedBy(m.State().(focused := true), f);
      ghost var env, parts := m.Env(), m.PartsNow();
      ActivateTail(m, others);
      assert m.Env() == env && m.PartsNow() == parts;
      assert m.UpdatedBy(m.State(), f) == flags;
      UpdateTail(m, f, audio, old(focus.element), others);
    }

    /** `Update`, as the source means it (the written loop is `RangePass`):
        every window is visited once; the last one of the queue, if opened,
        is activated, focused and updated, every other opened one is
        deactivated (so its update does nothing); then the queue keeps
        exactly the windows not dismissed, in order. */
    method Update(f: Frame, audio: Audio.AudioPlayer?)
      requires CanUpdate()
      modifies this`queue, focus`element, Windows(queue)`disabled
      modifies Tail()`open, Tail()`focused, Tail()`dismissed, Tail()`accepted, Tail()`notices
      modifies TailBox()`startID, TailBox()`rendered, TailParts()`pressed, TailParts()`hovered
      modifies (if audio == null then {} else {audio})`control
      modifies Focusing.ButtonOf(focus.element)`focused
      modifies Focusing.SwitchOf(focus.element)`focused
      modifies Focusing.EditOf(focus.element)`focused
      modifies Focusing.WindowOf(focus.element)`focused
      ensures queue == Undismissed(old(queue))
      ensures Visited(old(queue), focus, f, old(focus.element))
    {
      Visit(f, audio);
      ghost var visited := Visited(old(queue), focus, f, old(focus.element));
      Prune();
      assert Visited(old(queue), focus, f, old(focus.element)) == visited;
    }

    /** The removals of `Update`: the queue keeps exactly the windows not
        dismissed, in order. */
    method Prune()
      modifies this`queue
      ensures queue == Undismissed(old(queue))
      ensures unchanged(Last(old(queue)), LastParts(old(queue)), LastBox(old(queue)))
    {
      queue := KeepUndismissed(queue);
    }

    /** The visits of `Update`. They are done as the tail first, then the
        deactivation of the others: the others change nothing but their
        `disabled` flag and the tail nothing of theirs but the registry
        holder's focus, so this order has the effect of the source's
        interleaved one. */
    method Visit(f: Frame, audio: Audio.AudioPlayer?)
      requires CanUpdate()
      modifies focus`element, Windows(queue)`disabled
      modifies Tail()`open, Tail()`focused, Tail()`dismissed, Tail()`accepted, Tail()`notices
      modifies TailBox()`startID, TailBox()`rendered, TailParts()`pressed, TailParts()`hovered
      modifies (if audio == null then {} else {audio})`control
      modifies Focusing.ButtonOf(focus.element)`focused
      modifies Focusing.SwitchOf(focus.element)`focused
      modifies Focusing.EditOf(focus.element)`focused
      modifies Focusing.WindowOf(focus.element)`focused
      ensures queue == old(queue)
      ensures Visited(old(queue), focus, f, old(focus.element))
    {
      var q := queue;
      var n := |q|;
      if n > 0 {
        var t := q[n - 1];
        VisitTail(t, f, audio, q);
        assert t !in Windows(q[..n - 1]);
        label tailDone:
        Deactivate(q, n - 1);
        assert unchanged@tailDone(t, t.acceptButton) && unchanged@tailDone(t.CancelSet());
      }
    }


    /** `ContainsPosition`: whether some window's last draw area holds the
        point. */
    method ContainsPosition(pos: Pos) returns (r: bool)
      ensures r <==> exists m :: m in queue && m.drawArea.Contains(pos)
    {
      for k := 0 to |queue|
        invariant forall j :: 0 <= j < k ==> !queue[j].drawArea.Contains(pos)
      {
        if queue[k].drawArea.Contains(pos) {
          return true;
        }
      }
      return false;
    }

    /** `Draw`: the opened windows are drawn, in queue order, each placed
        by its size; returns the windows drawn. */
    method Draw(place: (real, real) -> Placement) returns (drawn: seq<Window>)
      modifies Windows(queue)`drawArea, BoxesOf(queue)`drawArea, PartsOf(queue)`drawArea
      ensures drawn == old(OpenOnes(queue))
      ensures forall m :: m in drawn ==> m.drawArea == place(m.sizeW, m.sizeH).area
      ensures forall m :: m in old(queue) && !old(m.open) ==> m.drawArea == old(m.drawArea)
    {
      drawn := [];
      for k := 0 to |queue|
        invariant drawn == old(OpenOnes(queue[..k]))
        invariant forall m :: m in drawn ==> m.drawArea == place(m.sizeW, m.sizeH).area
        invariant forall m :: m in queue && !m.open ==> m.drawArea == old(m.drawArea)
      {
        var m := queue[k];
        assert queue[..k + 1][..k] == queue[..k];
        if m.open {
          DrawWindow(m, place);
          drawn := drawn + [m];
        }
      }
      assert queue[..|queue|] == queue;
    }
  }
}
