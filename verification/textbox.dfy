/** The scrolling text box: a list of lines, a scroll cursor `startID`
    naming the bottom line of the window, and the visible window computed by
    walking upward from that line until the box is full. */
module Textboxes {
  import opened Values
  import opened Input
  import Buttons
  import Audio
  import TextLayout

  // ---------------------------------------------------------------------
  // The visible window

  function Reversed<T>(s: seq<T>): (r: seq<T>)
    ensures |r| == |s|
    decreases |s|
  {
    if s == [] then [] else Reversed(s[1..]) + [s[0]]
  }

  lemma {:induction false} ReversedAppend<T>(a: seq<T>, b: seq<T>)
    ensures Reversed(a + b) == Reversed(b) + Reversed(a)
    decreases |a|
  {
    if a == [] {
      assert a + b == b;
    } else {
      assert (a + b)[1..] == a[1..] + b;
      ReversedAppend(a[1..], b);
    }
  }

  lemma {:induction false} ReversedTwice<T>(s: seq<T>)
    ensures Reversed(Reversed(s)) == s
    decreases |s|
  {
    if s != [] {
      ReversedAppend(Reversed(s[1..]), [s[0]]);
      ReversedTwice(s[1..]);
    }
  }

  /** How the box lays out one line: the pieces it wraps into and the
      height of the line. */
  datatype Layout = Layout(wrap: string -> seq<string>, lineHeight: string -> real)

  /** The layout of a box whose lines break at `width` under the font
      measurement `m`. */
  function BoxLayout(m: TextLayout.Metrics, width: real): (lay: Layout)
    ensures forall line :: lay.wrap(line) == TextLayout.BreakLine(line, m.width, width)
    ensures lay.lineHeight == m.height
  {
    Layout(line => TextLayout.BreakLine(line, m.width, width), m.height)
  }

  /** The pieces a line wraps into. */
  function Wrapped(line: string, lay: Layout): seq<string> {
    lay.wrap(line)
  }

  /** The wrapped pieces of several lines, top to bottom. */
  function Flat(lines: seq<string>, lay: Layout): seq<string>
    decreases |lines|
  {
    if lines == [] then []
    else Flat(lines[..|lines| - 1], lay) + Wrapped(lines[|lines| - 1], lay)
  }

  /** `x` added up `k` times. */
  function Times(x: real, k: nat): real
    decreases k
  {
    if k == 0 then 0.0 else Times(x, k - 1) + x
  }

  lemma {:induction false} TimesIsProduct(x: real, k: nat)
    ensures Times(x, k) == x * (k as real)
    decreases k
  {
    if k > 0 {
      TimesIsProduct(x, k - 1);
      assert x * ((k - 1) as real) + x == x * (k as real);
    }
  }

  /** The height a line takes once wrapped: the height of the whole line
      once per piece. */
  function LineHeight(line: string, lay: Layout): real {
    Times(lay.lineHeight(line), |Wrapped(line, lay)|)
  }

  function Height(lines: seq<string>, lay: Layout): real
    decreases |lines|
  {
    if lines == [] then 0.0
    else Height(lines[..|lines| - 1], lay) + LineHeight(lines[|lines| - 1], lay)
  }

  /** The bottom line of the window: the cursor, capped at the last line;
      -1 when no line qualifies. */
  function Top(lines: seq<string>, startID: int): (t: int)
    ensures -1 <= t < |lines|
    ensures t <= startID || t == -1
  {
    if startID < -1 then -1 else if startID < |lines| - 1 then startID else |lines| - 1
  }

  /** The pieces `updateTextVisibility` collects walking upward from line
      `i`, bottom to top, with `h` of the box already used: it stops at the
      first line reached once the box is full. */
  function Gather(lines: seq<string>, i: int, h: real, boxH: real, lay: Layout): seq<string>
    requires -1 <= i < |lines|
    decreases i + 1
  {
    if i < 0 || h >= boxH then []
    else
      Reversed(Wrapped(lines[i], lay)) + Gather(lines, i - 1, h + LineHeight(lines[i], lay), boxH, lay)
  }

  /** The text the box shows, top to bottom. */
  function Visible(lines: seq<string>, startID: int, boxH: real, lay: Layout): seq<string> {
    Reversed(Gather(lines, Top(lines, startID), 0.0, boxH, lay))
  }

  /** The first (topmost) line the upward walk from `i` takes. */
  function First(lines: seq<string>, i: int, h: real, boxH: real, lay: Layout): int
    requires -1 <= i < |lines|
    decreases i + 1
  {
    if i < 0 || h >= boxH then i + 1
    else First(lines, i - 1, h + LineHeight(lines[i], lay), boxH, lay)
  }

  lemma {:induction false} FirstInRange(lines: seq<string>, i: int, h: real, boxH: real, lay: Layout)
    requires -1 <= i < |lines|
    ensures 0 <= First(lines, i, h, boxH, lay) <= i + 1
    decreases i + 1
  {
    if !(i < 0 || h >= boxH) {
      FirstInRange(lines, i - 1, h + LineHeight(lines[i], lay), boxH, lay);
    }
  }

  /** The walk from `i` shows a contiguous run of lines ending at line `i`,
      each wrapped, top to bottom. */
  lemma {:induction false} GatherIsRun(lines: seq<string>, i: int, h: real, boxH: real, lay: Layout)
    requires -1 <= i < |lines|
    ensures 0 <= First(lines, i, h, boxH, lay) <= i + 1
    ensures Reversed(Gather(lines, i, h, boxH, lay)) == Flat(lines[First(lines, i, h, boxH, lay)..i + 1], lay)
    decreases i + 1
  {
    FirstInRange(lines, i, h, boxH, lay);
    if i < 0 || h >= boxH {
      assert lines[i + 1..i + 1] == [];
    } else {
      var b := Wrapped(lines[i], lay);
      var h' := h + LineHeight(lines[i], lay);
      GatherIsRun(lines, i - 1, h', boxH, lay);
      var f := First(lines, i - 1, h', boxH, lay);
      var rest := Gather(lines, i - 1, h', boxH, lay);
      assert Gather(lines, i, h, boxH, lay) == Reversed(b) + rest;
      assert First(lines, i, h, boxH, lay) == f;
      ReversedAppend(Reversed(b), rest);
      ReversedTwice(b);
      assert Reversed(Gather(lines, i, h, boxH, lay)) == Flat(lines[f..i], lay) + b;
      var run := lines[f..i + 1];
      assert run[..|run| - 1] == lines[f..i] && run[|run| - 1] == lines[i];
      assert Flat(run, lay) == Flat(lines[f..i], lay) + b;
    }
  }

  /** The run stops only because the box is full: when lines above it are
      left out, the run's height fills what was left of the box. */
  lemma {:induction false} GatherStopsWhenFull(lines: seq<string>, i: int, h: real, boxH: real, lay: Layout)
    requires -1 <= i < |lines|
    ensures var f := First(lines, i, h, boxH, lay);
      0 <= f <= i + 1 && (f > 0 ==> h + Height(lines[f..i + 1], lay) >= boxH)
    decreases i + 1
  {
    FirstInRange(lines, i, h, boxH, lay);
    if i < 0 || h >= boxH {
      assert lines[i + 1..i + 1] == [];
    } else {
      var h' := h + LineHeight(lines[i], lay);
      GatherStopsWhenFull(lines, i - 1, h', boxH, lay);
      var f := First(lines, i - 1, h', boxH, lay);
      var run := lines[f..i + 1];
      assert run[..|run| - 1] == lines[f..i] && run[|run| - 1] == lines[i];
    }
  }

  /** The run takes no more lines than it must: its top line went in while
      the lines below it still left room in the box. */
  lemma {:induction false} GatherTakesNoExtra(lines: seq<string>, i: int, h: real, boxH: real, lay: Layout)
    requires -1 <= i < |lines|
    ensures var f := First(lines, i, h, boxH, lay);
      0 <= f <= i + 1 && (f <= i ==> h + Height(lines[f + 1..i + 1], lay) < boxH)
    decreases i + 1
  {
    FirstInRange(lines, i, h, boxH, lay);
    if !(i < 0 || h >= boxH) {
      var h' := h + LineHeight(lines[i], lay);
      GatherTakesNoExtra(lines, i - 1, h', boxH, lay);
      var f := First(lines, i - 1, h', boxH, lay);
      if f <= i - 1 {
        var run := lines[f + 1..i + 1];
        assert run[..|run| - 1] == lines[f + 1..i] && run[|run| - 1] == lines[i];
      } else {
        assert lines[f + 1..i + 1] == [];
      }
    }
  }

  /** The top line of the window. */
  function WindowStart(lines: seq<string>, startID: int, boxH: real, lay: Layout): int {
    First(lines, Top(lines, startID), 0.0, boxH, lay)
  }

  /** What the box shows: the wrapped lines from `WindowStart` down to the
      cursor line (capped at the last line), in order, so no line below the
      cursor shows. */
  lemma VisibleWindow(lines: seq<string>, startID: int, boxH: real, lay: Layout)
    ensures var t, f := Top(lines, startID), WindowStart(lines, startID, boxH, lay);
      0 <= f <= t + 1 && Visible(lines, startID, boxH, lay) == Flat(lines[f..t + 1], lay)
  {
    GatherIsRun(lines, Top(lines, startID), 0.0, boxH, lay);
  }

  /** Lines above the window are left out only when the window fills the
      box, and the window's top line went in while the box still had room. */
  lemma WindowFillsBox(lines: seq<string>, startID: int, boxH: real, lay: Layout)
    ensures var t, f := Top(lines, startID), WindowStart(lines, startID, boxH, lay);
      && 0 <= f <= t + 1
      && (f > 0 ==> Height(lines[f..t + 1], lay) >= boxH)
      && (f <= t ==> Height(lines[f + 1..t + 1], lay) < boxH)
  {
    var t := Top(lines, startID);
    var f := First(lines, t, 0.0, boxH, lay);
    GatherStopsWhenFull(lines, t, 0.0, boxH, lay);
    GatherTakesNoExtra(lines, t, 0.0, boxH, lay);
    if f > 0 {
      assert 0.0 + Height(lines[f..t + 1], lay) >= boxH;
    }
    if f <= t {
      assert 0.0 + Height(lines[f + 1..t + 1], lay) < boxH;
    }
  }

  /** A box with room shows the cursor line whenever the cursor is on a
      line. */
  lemma WindowHoldsCursor(lines: seq<string>, startID: int, boxH: real, lay: Layout)
    requires boxH > 0.0 && 0 <= startID < |lines|
    ensures Top(lines, startID) == startID
    ensures WindowStart(lines, startID, boxH, lay) <= startID
  {
    var h := LineHeight(lines[startID], lay);
    assert WindowStart(lines, startID, boxH, lay) == First(lines, startID - 1, 0.0 + h, boxH, lay);
    FirstInRange(lines, startID - 1, 0.0 + h, boxH, lay);
  }

  /** Scrolling past the last line shows the same window as the last line. */
  lemma VisiblePastEnd(lines: seq<string>, startID: int, boxH: real, lay: Layout)
    requires startID >= |lines| - 1
    ensures Visible(lines, startID, boxH, lay) == Visible(lines, |lines| - 1, boxH, lay)
  {
  }

  /** Three one-piece lines of height 1 in a box of height 2 with the
      cursor on the last line: the two bottom lines show. */
  lemma VisibleExample()
    ensures Visible(["a", "b", "c"], 2, 2.0, BoxLayout(TextLayout.Metrics(s => 1.0, s => 1.0), 10.0)) == ["b", "c"]
  {
    var lay := BoxLayout(TextLayout.Metrics(s => 1.0, s => 1.0), 10.0);
    var lines := ["a", "b", "c"];
    assert Wrapped("c", lay) == ["c"];
    assert Wrapped("b", lay) == ["b"];
    assert LineHeight("c", lay) == 1.0 && LineHeight("b", lay) == 1.0;
    assert Gather(lines, 0, 2.0, 2.0, lay) == [];
    assert Gather(lines, 1, 1.0, 2.0, lay) == ["b"];
    assert Gather(lines, 2, 0.0, 2.0, lay) == ["c", "b"];
    assert Reversed(["c", "b"]) == Reversed(["b"]) + ["c"];
    assert Reversed(["b"]) == Reversed([]) + ["b"];
  }

  // ---------------------------------------------------------------------
  // Scrolling

  /** The four things that move the cursor during an update, in the order
      they are handled. */
  datatype Scroll = KeyDown | KeyUp | UpButton | DownButton

  /** One scroll over `n` lines. The Down key stops at the last line; the
      down button stops only one past it. */
  function Scrolled(s: Scroll, id: int, n: int): (r: int)
    ensures s == KeyDown ==> r == (if id < n - 1 then id + 1 else id)
    ensures s == DownButton ==> r == (if id >= n then id else id + 1)
    ensures s == KeyUp || s == UpButton ==> r == (if id > 0 then id - 1 else id)
  {
    match s
    case KeyDown => if id < n - 1 then id + 1 else id
    case KeyUp => if id > 0 then id - 1 else id
    case UpButton => if id <= 0 then id else id - 1
    case DownButton => if id >= n then id else id + 1
  }

  /** The cursor after a run of scrolls, and whether any of them moved it
      (each move recomputes the visible window). */
  function ScrollRun(id: int, n: int, steps: seq<Scroll>): (int, bool)
    decreases |steps|
  {
    if steps == [] then (id, false)
    else
      var (before, moved) := ScrollRun(id, n, steps[..|steps| - 1]);
      var after := Scrolled(steps[|steps| - 1], before, n);
      (after, moved || after != before)
  }

  /** A cursor on a line, or one past the last, stays so through any
      scrolling; only the down button reaches one past the last. */
  lemma {:induction false} ScrollRunBounds(id: int, n: int, steps: seq<Scroll>)
    requires -1 <= id <= n
    requires id == -1 ==> n == 0
    ensures var r := ScrollRun(id, n, steps).0; -1 <= r <= n && (r == -1 ==> n == 0)
    ensures DownButton !in steps && id < n ==> ScrollRun(id, n, steps).0 < n
    decreases |steps|
  {
    if steps != [] {
      ScrollRunBounds(id, n, steps[..|steps| - 1]);
      assert forall x :: x in steps[..|steps| - 1] ==> x in steps;
    }
  }

  /** The window after a run of scrolls that started at cursor `id0` with
      `r0` shown. */
  function Shown(lines: seq<string>, id0: int, r0: seq<string>, steps: seq<Scroll>,
                 boxH: real, lay: Layout): seq<string>
  {
    var (id, moved) := ScrollRun(id0, |lines|, steps);
    if moved then Visible(lines, id, boxH, lay) else r0
  }

  /** One more scroll, recomputing the window only when it moves the
      cursor, keeps the cursor and window those of the longer run. */
  lemma ScrollSnoc(lines: seq<string>, id0: int, r0: seq<string>, steps: seq<Scroll>, s: Scroll,
                   boxH: real, lay: Layout,
                   id: int, r: seq<string>, id': int, r': seq<string>)
    requires id == ScrollRun(id0, |lines|, steps).0 && r == Shown(lines, id0, r0, steps, boxH, lay)
    requires id' == Scrolled(s, id, |lines|)
    requires r' == (if id' != id then Visible(lines, id', boxH, lay) else r)
    ensures id' == ScrollRun(id0, |lines|, steps + [s]).0
    ensures r' == Shown(lines, id0, r0, steps + [s], boxH, lay)
  {
    assert (steps + [s])[..|steps|] == steps;
  }

  /** `ScrollSnoc` for a scroll that may not have happened. */
  lemma ScrollMaybe(lines: seq<string>, id0: int, r0: seq<string>, steps: seq<Scroll>, s: Scroll, taken: bool,
                    boxH: real, lay: Layout,
                    id: int, r: seq<string>, id': int, r': seq<string>)
    requires id == ScrollRun(id0, |lines|, steps).0 && r == Shown(lines, id0, r0, steps, boxH, lay)
    requires taken ==> id' == Scrolled(s, id, |lines|) && r' == (if id' != id then Visible(lines, id', boxH, lay) else r)
    requires !taken ==> id' == id && r' == r
    ensures id' == ScrollRun(id0, |lines|, steps + (if taken then [s] else [])).0
    ensures r' == Shown(lines, id0, r0, steps + (if taken then [s] else []), boxH, lay)
  {
    if taken {
      ScrollSnoc(lines, id0, r0, steps, s, boxH, lay, id, r, id', r');
    } else {
      assert steps + [] == steps;
    }
  }

  /** Running two runs of scrolls one after the other is running them
      together. */
  lemma {:induction false} ScrollRunAppend(id0: int, n: int, a: seq<Scroll>, b: seq<Scroll>)
    ensures var (mid, movedA) := ScrollRun(id0, n, a);
      ScrollRun(id0, n, a + b) == (ScrollRun(mid, n, b).0, movedA || ScrollRun(mid, n, b).1)
    decreases |b|
  {
    if b == [] {
      assert a + b == a;
    } else {
      var b' := b[..|b| - 1];
      assert (a + b)[..|a + b| - 1] == a + b';
      assert (a + b)[|a + b| - 1] == b[|b| - 1];
      ScrollRunAppend(id0, n, a, b');
    }
  }

  /** A run that never moves the cursor leaves it where it was. */
  lemma {:induction false} ScrollRunStill(id: int, n: int, steps: seq<Scroll>)
    ensures !ScrollRun(id, n, steps).1 ==> ScrollRun(id, n, steps).0 == id
    decreases |steps|
  {
    if steps != [] {
      ScrollRunStill(id, n, steps[..|steps| - 1]);
    }
  }

  /** The same for the window shown. */
  lemma ShownAppend(lines: seq<string>, id0: int, r0: seq<string>, a: seq<Scroll>, b: seq<Scroll>, boxH: real, lay: Layout)
    ensures ScrollRun(id0, |lines|, a + b).0 == ScrollRun(ScrollRun(id0, |lines|, a).0, |lines|, b).0
    ensures Shown(lines, id0, r0, a + b, boxH, lay)
      == Shown(lines, ScrollRun(id0, |lines|, a).0, Shown(lines, id0, r0, a, boxH, lay), b, boxH, lay)
  {
    ScrollRunAppend(id0, |lines|, a, b);
    ScrollRunStill(ScrollRun(id0, |lines|, a).0, |lines|, b);
  }

  /** The key steps of one frame: Down, then Up. */
  function KeyScrolls(f: Frame): seq<Scroll> {
    (if f.down then [KeyDown] else []) + (if f.up then [KeyUp] else [])
  }

  /** The button steps of one frame: the up button, then the down button. */
  function ButtonScrolls(upClicked: bool, downClicked: bool): seq<Scroll> {
    (if upClicked then [UpButton] else []) + (if downClicked then [DownButton] else [])
  }

  /** Whether a scroll button's handler runs in a frame: the button is
      enabled and the frame completes a release click inside its area. */
  predicate ButtonClicked(disabled: bool, area: Rect, pressed: bool, f: Frame) {
    !disabled && Buttons.ReleaseClick(pressed, area.Contains(f.mouse), f)
  }

  /** The scroll steps of one `Update`: the keys, then each scroll button
      as its state at the start of the frame decides. */
  function FrameScrolls(f: Frame, upDisabled: bool, upArea: Rect, upPressed: bool,
                        downDisabled: bool, downArea: Rect, downPressed: bool): seq<Scroll>
  {
    KeyScrolls(f) + ButtonScrolls(ButtonClicked(upDisabled, upArea, upPressed, f),
                                  ButtonClicked(downDisabled, downArea, downPressed, f))
  }

  /** Cursor `id` and written text `r` are what `steps` leave from cursor
      `id0` and written text `r0`. */
  ghost predicate Scrolls(lines: seq<string>, id0: int, r0: seq<string>, steps: seq<Scroll>,
                          boxH: real, lay: Layout, id: int, r: seq<string>)
  {
    id == ScrollRun(id0, |lines|, steps).0 && r == Shown(lines, id0, r0, steps, boxH, lay)
  }

  /** The state one frame changes in a text box: its cursor, the text it
      wrote, and its scroll buttons' pointer flags. */
  datatype BoxState = BoxState(startID: int, rendered: seq<string>, up: Buttons.Touch, down: Buttons.Touch)

  /** What a text box's frame depends on besides the input and that state:
      its scroll buttons' settings, its lines, its height and its layout. */
  datatype BoxEnv = BoxEnv(up: Buttons.Setting, down: Buttons.Setting, lines: seq<string>, boxH: real, lay: Layout)

  /** The state one frame `f` of `Update` leaves from state `s`: the keys'
      scrolls and then the scroll buttons' clicks move the cursor and the
      written text, and the two scroll buttons step. */
  function FrameBox(s: BoxState, e: BoxEnv, f: Frame): BoxState {
    var steps := FrameScrolls(f, e.up.disabled, e.up.area, s.up.pressed, e.down.disabled, e.down.area, s.down.pressed);
    BoxState(ScrollRun(s.startID, |e.lines|, steps).0, Shown(e.lines, s.startID, s.rendered, steps, e.boxH, e.lay),
             Buttons.NextTouch(s.up, e.up, f), Buttons.NextTouch(s.down, e.down, f))
  }

  /** A frame taken in its two halves, the keys and then the scroll
      buttons as their flags at the start of the frame decide, leaves the
      state `FrameBox` gives. */
  lemma FrameBoxHalves(s: BoxState, e: BoxEnv, f: Frame, mid: int, midR: seq<string>, up: bool, down: bool,
                       after: BoxState)
    requires Scrolls(e.lines, s.startID, s.rendered, KeyScrolls(f), e.boxH, e.lay, mid, midR)
    requires up == ButtonClicked(e.up.disabled, e.up.area, s.up.pressed, f)
    requires down == ButtonClicked(e.down.disabled, e.down.area, s.down.pressed, f)
    requires Scrolls(e.lines, mid, midR, ButtonScrolls(up, down), e.boxH, e.lay, after.startID, after.rendered)
    requires after.up == Buttons.NextTouch(s.up, e.up, f) && after.down == Buttons.NextTouch(s.down, e.down, f)
    ensures FrameBox(s, e, f) == after
  {
    ShownAppend(e.lines, s.startID, s.rendered, KeyScrolls(f), ButtonScrolls(up, down), e.boxH, e.lay);
  }

  /** The pieces of `pieces`, last first, after `acc`: the two reversing
      loops of `updateTextVisibility`. */
  method AppendReversed(acc: seq<string>, pieces: seq<string>) returns (r: seq<string>)
    ensures r == acc + Reversed(pieces)
  {
    r := acc;
    for k := |pieces| downto 0
      invariant r == acc + Reversed(pieces[k..])
    {
      assert pieces[k..][1..] == pieces[k + 1..];
      r := r + [pieces[k]];
    }
    assert pieces[0..] == pieces;
  }

  /** One line taken by the upward walk: its pieces, last first, go after
      the ones collected so far, and the height grows by the line's height
      once per piece. */
  method TakeLine(line: string, lay: Layout, visibleText: seq<string>, height: real)
    returns (visibleText': seq<string>, height': real)
    ensures visibleText' == visibleText + Reversed(Wrapped(line, lay))
    ensures height' == height + LineHeight(line, lay)
  {
    var breakLines := lay.wrap(line);
    height' := height + lay.lineHeight(line) * (|breakLines| as real);
    TimesIsProduct(lay.lineHeight(line), |breakLines|);
    visibleText' := AppendReversed(visibleText, breakLines);
  }

  /** The first loop of `updateTextVisibility`: walk upward from the last
      line, skipping lines below the cursor and stopping once the collected
      height reaches the box height. */
  method CollectVisible(lines: seq<string>, startID: int, boxH: real, lay: Layout)
    returns (visibleText: seq<string>)
    ensures visibleText == Gather(lines, Top(lines, startID), 0.0, boxH, lay)
  {
    ghost var top := Top(lines, startID);
    ghost var total := Gather(lines, top, 0.0, boxH, lay);
    visibleText := [];
    var visibleTextHeight := 0.0;
    var i := |lines| - 1;
    // `next` is the line the walk takes next: the cursor line until the
    // loop reaches it, then `i`.
    ghost var next := top;
    while i >= 0
      invariant -1 <= i < |lines|
      invariant next == (if i < top then i else top)
      invariant visibleText + Gather(lines, next, visibleTextHeight, boxH, lay) == total
      decreases i + 1
    {
      if i > startID {
        assert next == top <= i - 1;
        i := i - 1;
        continue;
      }
      if visibleTextHeight >= boxH {
        break;
      }
      assert next == i;
      ghost var before, h := visibleText, visibleTextHeight;
      visibleText, visibleTextHeight := TakeLine(lines[i], lay, visibleText, visibleTextHeight);
      GatherStep(lines, i, before, visibleText, h, total, boxH, lay);
      i, next := i - 1, i - 1;
    }
    assert Gather(lines, next, visibleTextHeight, boxH, lay) == [];
  }

  /** One line taken by the upward walk keeps the walk's invariant. */
  lemma GatherStep(lines: seq<string>, i: int, before: seq<string>, after: seq<string>, h: real, total: seq<string>,
                   boxH: real, lay: Layout)
    requires 0 <= i < |lines| && h < boxH
    requires before + Gather(lines, i, h, boxH, lay) == total
    requires after == before + Reversed(Wrapped(lines[i], lay))
    ensures after + Gather(lines, i - 1, h + LineHeight(lines[i], lay), boxH, lay) == total
  {
    var rest := Gather(lines, i - 1, h + LineHeight(lines[i], lay), boxH, lay);
    assert Gather(lines, i, h, boxH, lay) == Reversed(Wrapped(lines[i], lay)) + rest;
    assert after + rest == before + (Reversed(Wrapped(lines[i], lay)) + rest);
  }

  // ---------------------------------------------------------------------
  // The widget

  class Textbox {
    var bgW: real
    var bgH: real
    var color: Option<Color>
    /** The font measurement of the text area. */
    const metrics: TextLayout.Metrics
    var drawArea: Rect
    const upButton: Buttons.Button
    const downButton: Buttons.Button
    var textContent: seq<string>
    /** The pieces written to the text area by the last recomputation, top
        to bottom. */
    var rendered: seq<string>
    var startID: int

    ghost predicate Valid()
      reads upButton`hasOnClick, upButton`focused, downButton`hasOnClick, downButton`focused
    {
      upButton != downButton
      && upButton.hasOnClick && downButton.hasOnClick
      && !upButton.focused && !downButton.focused
    }

    /** The state one frame changes. */
    ghost function Now(): BoxState
      reads this`startID, this`rendered, upButton`pressed, upButton`hovered, downButton`pressed, downButton`hovered
    {
      BoxState(startID, rendered, Buttons.Touch(upButton.pressed, upButton.hovered),
               Buttons.Touch(downButton.pressed, downButton.hovered))
    }

    /** What a frame depends on besides the input and `Now`. */
    ghost function Env(): BoxEnv
      reads this`textContent, this`bgH, this`bgW, upButton`disabled, upButton`drawArea
      reads downButton`disabled, downButton`drawArea
    {
      BoxEnv(Buttons.Setting(upButton.disabled, upButton.drawArea), Buttons.Setting(downButton.disabled, downButton.drawArea),
             textContent, bgH, BoxLayout(metrics, bgW))
    }

    /** The box went through one frame `f` of `Update`. */
    twostate predicate Framed(f: Frame)
      reads this`startID, this`rendered, upButton`pressed, upButton`hovered, downButton`pressed, downButton`hovered
    {
      Now() == old(FrameBox(Now(), Env(), f))
    }

    /** The window the current lines and cursor call for. */
    ghost function Window(): seq<string>
      reads this
    {
      Visible(textContent, startID, bgH, BoxLayout(metrics, bgW))
    }

    /** `NewTextbox`, with the button size looked up and the font
        measurement and click sound passed in. */
    constructor (mainColor: Option<Color>, accentColor: Option<Color>, w: real, h: real,
                 m: TextLayout.Metrics, buttonW: real, buttonH: real, sound: Option<Buffer>)
      ensures Valid() && fresh(upButton) && fresh(downButton)
      ensures textContent == [] && rendered == [] && startID == 0
      ensures bgW == w && bgH == h && color == mainColor && metrics == m && drawArea == ZeroRect
      ensures upButton.color == downButton.color == accentColor
    {
      var up := new Buttons.Button(accentColor, buttonW, buttonH, None, sound);
      up.SetOnClickFunc(true);
      var down := new Buttons.Button(accentColor, buttonW, buttonH, None, sound);
      down.SetOnClickFunc(true);
      upButton, downButton := up, down;
      bgW, bgH := w, h;
      color := mainColor;
      metrics := m;
      drawArea := ZeroRect;
      textContent := [];
      rendered := [];
      startID := 0;
    }

    /** The state `Draw` keeps: the area it drew in, and the areas its
        buttons were drawn in (the up button, then the down button; their
        placement at the box's right corners is computed by layout helpers
        that are not part of this model). */
    method Draw(area: Rect, upArea: Rect, downArea: Rect)
      modifies this`drawArea, upButton`drawArea, downButton`drawArea
      ensures drawArea == area && downButton.drawArea == downArea
      ensures upButton != downButton ==> upButton.drawArea == upArea
    {
      drawArea := area;
      upButton.Draw(upArea);
      downButton.Draw(downArea);
    }

    /** `Update`: the Down and Up keys, then the up and down buttons. The
        window is recomputed after every move, so it ends up as the one for
        the final cursor, or untouched when nothing moved. */
    method Update(f: Frame, audio: Audio.AudioPlayer?)
      requires Valid()
      modifies this`startID, this`rendered
      modifies upButton`pressed, upButton`hovered, downButton`pressed, downButton`hovered
      modifies (if audio == null then {} else {audio})`control
      ensures Valid()
      ensures Framed(f)
    {
      ghost var s, e := Now(), Env();
      ScrollKeys(f);
      ghost var mid, midR := startID, rendered;
      var up, down := ScrollButtons(f, audio);
      FrameBoxHalves(s, e, f, mid, midR, up, down, Now());
    }

    /** The key half of `Update`. */
    method ScrollKeys(f: Frame)
      modifies this`startID, this`rendered
      ensures startID == ScrollRun(old(startID), |textContent|, KeyScrolls(f)).0
      ensures rendered == Shown(textContent, old(startID), old(rendered), KeyScrolls(f), bgH, BoxLayout(metrics, bgW))
    {
      ghost var lay := BoxLayout(metrics, bgW);
      ghost var id, r := startID, rendered;
      if f.down {
        if startID < |textContent| - 1 {
          startID := startID + 1;
          UpdateTextVisibility();
        }
      }
      ScrollMaybe(textContent, old(startID), old(rendered), [], KeyDown, f.down, bgH, lay, id, r, startID, rendered);
      ghost var steps := [] + (if f.down then [KeyDown] else []);
      id, r := startID, rendered;
      if f.up {
        if startID > 0 {
          startID := startID - 1;
          UpdateTextVisibility();
        }
      }
      ScrollMaybe(textContent, old(startID), old(rendered), steps, KeyUp, f.up, bgH, lay, id, r, startID, rendered);
      assert steps + (if f.up then [KeyUp] else []) == KeyScrolls(f);
    }

    /** The button half of `Update`: whether each button was clicked. */
    method ScrollButtons(f: Frame, audio: Audio.AudioPlayer?) returns (up: bool, down: bool)
      requires Valid()
      modifies this`startID, this`rendered
      modifies upButton`pressed, upButton`hovered, downButton`pressed, downButton`hovered
      modifies (if audio == null then {} else {audio})`control
      ensures Valid()
      ensures Buttons.Stepped(upButton, f) && Buttons.Stepped(downButton, f)
      ensures up == (!upButton.disabled && Buttons.ReleaseClick(old(upButton.pressed), upButton.drawArea.Contains(f.mouse), f))
      ensures down == (!downButton.disabled && Buttons.ReleaseClick(old(downButton.pressed), downButton.drawArea.Contains(f.mouse), f))
      ensures startID == ScrollRun(old(startID), |textContent|, ButtonScrolls(up, down)).0
      ensures rendered == Shown(textContent, old(startID), old(rendered), ButtonScrolls(up, down), bgH, BoxLayout(metrics, bgW))
    {
      ghost var lay := BoxLayout(metrics, bgW);
      ghost var id, r := startID, rendered;
      ghost var downPressed := downButton.pressed;
      up := ButtonScroll(upButton, UpButton, f, audio);
      ScrollMaybe(textContent, old(startID), old(rendered), [], UpButton, up, bgH, lay, id, r, startID, rendered);
      ghost var steps := [] + (if up then [UpButton] else []);
      id, r := startID, rendered;
      assert downButton.pressed == downPressed;
      down := ButtonScroll(downButton, DownButton, f, audio);
      ScrollMaybe(textContent, old(startID), old(rendered), steps, DownButton, down, bgH, lay, id, r, startID, rendered);
      assert steps + (if down then [DownButton] else []) == ButtonScrolls(up, down);
    }

    /** One scroll button's frame inside `Update`: the button updates and,
        on a click, its handler moves the cursor. */
    method ButtonScroll(b: Buttons.Button, s: Scroll, f: Frame, audio: Audio.AudioPlayer?) returns (clicked: bool)
      requires Valid()
      requires (s == UpButton && b == upButton) || (s == DownButton && b == downButton)
      modifies b`pressed, b`hovered, this`startID, this`rendered
      modifies (if audio == null then {} else {audio})`control
      ensures Valid()
      ensures clicked == (!b.disabled && Buttons.ReleaseClick(old(b.pressed), b.drawArea.Contains(f.mouse), f))
      ensures Buttons.Stepped(b, f)
      ensures startID == (if clicked then Scrolled(s, old(startID), |textContent|) else old(startID))
      ensures rendered == (if startID != old(startID) then Window() else old(rendered))
    {
      clicked := !b.disabled && Buttons.ReleaseClick(b.pressed, b.drawArea.Contains(f.mouse), f);
      var clicks := b.Update(f, audio);
      if clicks > 0 {
        if s == UpButton {
          OnButtonUpClicked();
        } else {
          OnButtonDownClicked();
        }
      }
    }

    method SetSize(w: real, h: real)
      modifies this`bgW, this`bgH
      ensures bgW == w && bgH == h
    {
      bgW, bgH := w, h;
    }

    function Size(): (real, real)
      reads this
    {
      (bgW, bgH)
    }

    /** `SetText`: the lines replace the content and the cursor goes to the
        last line (-1 when there are none). */
    method SetText(lines: seq<string>)
      modifies this`textContent, this`rendered, this`startID
      ensures textContent == lines && startID == |lines| - 1
      ensures rendered == Window()
    {
      Clear();
      textContent := lines;
      startID := |textContent| - 1;
      UpdateTextVisibility();
    }

    /** `AddText`: one line at the end, and the cursor on it. */
    method AddText(line: string)
      modifies this`textContent, this`rendered, this`startID
      ensures textContent == old(textContent) + [line] && startID == |old(textContent)|
      ensures rendered == Window()
    {
      textContent := textContent + [line];
      startID := |textContent| - 1;
      UpdateTextVisibility();
    }

    /** `Clear`: no lines; the cursor stays where it was. */
    method Clear()
      modifies this`textContent, this`rendered
      ensures textContent == [] && rendered == [] && rendered == Window()
    {
      textContent := [];
      UpdateTextVisibility();
    }

    /** `String`: the lines joined with no separator. */
    method String() returns (content: string)
      ensures content == TextLayout.Concat(textContent)
    {
      content := "";
      for k := 0 to |textContent|
        invariant content == TextLayout.Concat(textContent[..k])
      {
        TextLayout.ConcatSnoc(textContent[..k], textContent[k]);
        assert textContent[..k + 1] == textContent[..k] + [textContent[k]];
        content := content + textContent[k];
      }
      assert textContent[..|textContent|] == textContent;
    }

    /** `ScrollBottom`: the cursor to the last line, without recomputing
        the window. */
    method ScrollBottom()
      modifies this`startID
      ensures startID == |textContent| - 1
    {
      startID := |textContent| - 1;
    }

    /** `updateTextVisibility`: collect the wrapped lines upward from the
        cursor line until the box is full, then write them top to bottom. */
    method UpdateTextVisibility()
      modifies this`rendered
      ensures rendered == Window()
    {
      var visibleText := CollectVisible(textContent, startID, bgH, BoxLayout(metrics, bgW));
      rendered := AppendReversed([], visibleText);
    }

    /** The up button's handler: a no-op at or above the first line. */
    method OnButtonUpClicked()
      modifies this`startID, this`rendered
      ensures startID == Scrolled(UpButton, old(startID), |textContent|)
      ensures rendered == (if startID != old(startID) then Window() else old(rendered))
    {
      if startID <= 0 {
        return;
      }
      startID := startID - 1;
      UpdateTextVisibility();
    }

    /** The down button's handler: a no-op once the cursor is at or past
        the line count, so it can stop one past the last line. */
    method OnButtonDownClicked()
      modifies this`startID, this`rendered
      ensures startID == Scrolled(DownButton, old(startID), |textContent|)
      ensures rendered == (if startID != old(startID) then Window() else old(rendered))
    {
      if startID >= |textContent| {
        return;
      }
      startID := startID + 1;
      UpdateTextVisibility();
    }
  }
}
