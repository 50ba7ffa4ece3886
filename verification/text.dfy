/** Line breaking for text widgets: `SplitSubN`, `breakPoint`, `breakLine`
    and the `Text` widget's content field. Strings are sequences of runes;
    a Go string's byte length is their UTF-8 length. */
module TextLayout {
  import opened Values

  /** Text measurement supplied by the font atlas: the width and height of a
      string as it would be rendered (`BoundsOf(s).W()` and `.H()`). */
  datatype Metrics = Metrics(width: string -> real, height: string -> real)

  // ---------------------------------------------------------------------
  // Sequences of strings

  function Concat(parts: seq<string>): string
    decreases |parts|
  {
    if parts == [] then [] else parts[0] + Concat(parts[1..])
  }

  lemma {:induction false} ConcatSnoc(parts: seq<string>, x: string)
    ensures Concat(parts + [x]) == Concat(parts) + x
    decreases |parts|
  {
    if parts != [] {
      assert (parts + [x])[1..] == parts[1..] + [x];
      ConcatSnoc(parts[1..], x);
    } else {
      assert Concat([x]) == x + Concat([]);
    }
  }

  function Abs(n: int): nat {
    if n < 0 then -n else n
  }

  // ---------------------------------------------------------------------
  // Arithmetic helpers for the remainder test of SplitSubN

  lemma {:induction false} MulAtLeast(k: int, e: int)
    requires k > 0 && e >= 1
    ensures k * e >= k
    decreases e
  {
    if e > 1 {
      MulAtLeast(k, e - 1);
      assert k * e == k * (e - 1) + k;
    }
  }

  lemma ModUnique(x: int, k: int, d: int, r: int)
    requires k > 0 && 0 <= r < k && x == k * d + r
    ensures x % k == r
  {
    var d', r' := x / k, x % k;
    assert x == k * d' + r';
    assert k * (d - d') == r' - r;
    if d > d' {
      MulAtLeast(k, d - d');
    } else if d < d' {
      assert k * (d' - d) == r - r';
      MulAtLeast(k, d' - d);
    }
  }

  /** Within a chunk that starts at a multiple q of k, the remainder of the
      next rune count is zero exactly when the chunk reaches k runes. */
  lemma ChunkBoundary(i: int, q: int, k: int, d: int)
    requires k > 0 && q == k * d && q <= i < q + k
    ensures (i + 1) % k == 0 <==> i + 1 == q + k
  {
    if i + 1 == q + k {
      assert i + 1 == k * (d + 1);
      ModUnique(i + 1, k, d + 1, 0);
    } else {
      ModUnique(i + 1, k, d, i + 1 - q);
    }
  }

  /** A remainder by a negative divisor is zero exactly when it is zero by
      the divisor's magnitude (true of Go's truncated `%` as of Dafny's). */
  lemma ModByMagnitude(x: int, n: int)
    requires n != 0
    ensures x % n == x % Abs(n)
  {
    if n < 0 {
      assert x == n * (x / n) + x % n;
      assert x == (-n) * (-(x / n)) + x % n;
      ModUnique(x, -n, -(x / n), x % n);
    }
  }

  // ---------------------------------------------------------------------
  // SplitSubN

  /** The runes of `s` cut into consecutive chunks of `k` runes, the last
      chunk holding what remains. */
  function Chunks(s: string, k: nat): seq<string>
    requires k > 0
    decreases |s|
  {
    if |s| <= k then (if s == [] then [] else [s])
    else [s[..k]] + Chunks(s[k..], k)
  }

  /** `SplitSubN(s, n)`: `[s]` for n == 0, otherwise chunks of |n| runes. */
  function SplitSubN(s: string, n: int): seq<string> {
    if n == 0 then [s] else Chunks(s, Abs(n))
  }

  lemma {:induction false} ChunksSnoc(a: string, c: string, k: nat, d: nat)
    requires k > 0 && |a| == k * d && 0 < |c| <= k
    ensures Chunks(a + c, k) == Chunks(a, k) + [c]
    decreases d
  {
    if d == 0 {
      assert a + c == c;
    } else {
      MulAtLeast(k, d);
      assert |a[k..]| == k * (d - 1);
      assert (a + c)[..k] == a[..k];
      assert (a + c)[k..] == a[k..] + c;
      ChunksSnoc(a[k..], c, k, d - 1);
      assert Chunks(a[k..], k) == [] ==> a[k..] == [];
      assert Chunks(a, k) == [a[..k]] + Chunks(a[k..], k);
    }
  }

  /** The loop of `SplitSubN`: append runes to the current chunk, close it
      when `(i+1) % n == 0`, and close the unfinished last chunk at the end. */
  method SplitSubNLoop(s: string, n: int) returns (subs: seq<string>)
    ensures subs == SplitSubN(s, n)
  {
    if n == 0 {
      return [s];
    }
    ghost var k := Abs(n);
    ghost var q, d := 0, 0;  // start of the current chunk, chunks closed so far
    var sub: string := "";
    subs := [];
    var l := |s|;
    for i := 0 to l
      invariant 0 <= q <= i && q == k * d
      invariant i - q < k
      invariant sub == s[q..i]
      invariant i < l || q == i ==> subs == Chunks(s[..q], k)
      invariant i == l && q < i ==> subs == Chunks(s[..q], k) + [sub]
    {
      ChunkBoundary(i, q, k, d);
      ModByMagnitude(i + 1, n);
      sub := sub + [s[i]];
      assert s[..q] + sub == s[..i + 1];
      if (i + 1) % n == 0 {
        ChunksSnoc(s[..q], sub, k, d);
        subs := subs + [sub];
        sub := "";
        assert k * (d + 1) == k * d + k;
        q, d := i + 1, d + 1;
      } else if i + 1 == l {
        subs := subs + [sub];
      }
    }
    if q < l {
      ChunksSnoc(s[..q], sub, k, d);
      assert s[..q] + sub == s;
    } else {
      assert s[..l] == s;
    }
  }

  /** Concatenating the pieces of `SplitSubN(s, n)` gives back `s`, for every n. */
  lemma {:induction false} SplitSubNConcat(s: string, n: int)
    ensures Concat(SplitSubN(s, n)) == s
  {
    if n == 0 {
      assert Concat([s]) == s + Concat([]);
    } else {
      ChunksConcat(s, Abs(n));
    }
  }

  lemma {:induction false} ChunksConcat(s: string, k: nat)
    requires k > 0
    ensures Concat(Chunks(s, k)) == s
    decreases |s|
  {
    if |s| <= k {
      if s != [] {
        assert Concat([s]) == s + Concat([]);
      }
    } else {
      ChunksConcat(s[k..], k);
      assert ([s[..k]] + Chunks(s[k..], k))[1..] == Chunks(s[k..], k);
      assert s[..k] + s[k..] == s;
    }
  }

  /** For n != 0 every piece but the last has exactly |n| runes, the last has
      between 1 and |n|, and only the empty string gives no pieces. */
  lemma {:induction false} SplitSubNSizes(s: string, n: int)
    requires n != 0
    ensures var r := SplitSubN(s, n);
      && (r == [] <==> s == [])
      && (forall j :: 0 <= j < |r| - 1 ==> |r[j]| == Abs(n))
      && (r != [] ==> 0 < |r[|r| - 1]| <= Abs(n))
  {
    ChunksSizes(s, Abs(n));
  }

  lemma {:induction false} ChunksSizes(s: string, k: nat)
    requires k > 0
    ensures var r := Chunks(s, k);
      && (r == [] <==> s == [])
      && (forall j :: 0 <= j < |r| - 1 ==> |r[j]| == k)
      && (r != [] ==> 0 < |r[|r| - 1]| <= k)
    decreases |s|
  {
    if |s| > k {
      ChunksSizes(s[k..], k);
      var r := Chunks(s, k);
      var t := Chunks(s[k..], k);
      assert r == [s[..k]] + t;
      forall j | 0 <= j < |r| - 1
        ensures |r[j]| == k
      {
        if j > 0 {
          assert r[j] == t[j - 1];
        }
      }
    }
  }

  // ---------------------------------------------------------------------
  // breakPoint

  function Utf8Len(c: char): nat {
    if c as int < 0x80 then 1
    else if c as int < 0x800 then 2
    else if c as int < 0x1_0000 then 3
    else 4
  }

  /** The number of bytes of the UTF-8 encoding of `s` (Go's `len`). */
  function ByteLen(s: string): (r: nat)
    ensures r >= |s|
    decreases |s|
  {
    if s == [] then 0 else Utf8Len(s[0]) + ByteLen(s[1..])
  }

  /** The prefix of `line` up to and including rune t measures at least `width`. */
  predicate Reaches(line: string, w: string -> real, width: real, t: nat)
    requires t < |line|
  {
    w(line[..t + 1]) >= width
  }

  /** The least index j >= from whose prefix `line[..j+1]` measures at least
      `width`, or |line| if there is none. */
  function FirstReach(line: string, w: string -> real, width: real, from: nat): (j: nat)
    requires from <= |line|
    ensures from <= j <= |line|
    ensures j < |line| ==> Reaches(line, w, width, j)
    ensures forall t :: from <= t < j ==> !Reaches(line, w, width, t)
    decreases |line| - from
  {
    if from == |line| then from
    else if Reaches(line, w, width, from) then from
    else FirstReach(line, w, width, from + 1)
  }

  /** The position of rune j within its line: the runes after the last
      newline at or before j (a newline starts a line at position 0). */
  function SegmentOffset(line: string, j: nat): (r: nat)
    requires j < |line|
    ensures r <= j
    ensures forall t :: j - r < t <= j ==> line[t] != '\n'
    ensures r < j ==> line[j - r] == '\n'
  {
    if line[j] == '\n' || j == 0 then 0 else SegmentOffset(line, j - 1) + 1
  }

  /** `breakPoint`: the in-line position of the first rune at which the
      measured prefix reaches `width`; if none does, the byte length minus one. */
  function BreakPoint(line: string, w: string -> real, width: real): int {
    var j := FirstReach(line, w, width, 0);
    if j < |line| then SegmentOffset(line, j) else ByteLen(line) - 1
  }

  method BreakPointLoop(line: string, w: string -> real, width: real) returns (bp: int)
    ensures bp == BreakPoint(line, w, width)
  {
    var checkLine: string := "";
    bp := -1;
    for i := 0 to |line|
      invariant checkLine == line[..i]
      invariant FirstReach(line, w, width, 0) == FirstReach(line, w, width, i)
      invariant i == 0 ==> bp == -1
      invariant i > 0 ==> bp == SegmentOffset(line, i - 1)
    {
      var c := line[i];
      if c == '\n' {
        bp := -1;
      }
      checkLine := checkLine + [c];
      bp := bp + 1;
      assert checkLine == line[..i + 1];
      if w(checkLine) >= width {
        return;
      }
    }
    bp := ByteLen(line) - 1;
  }

  /** Inside `breakLine` (a non-empty line wider than `width`) the fallback
      is never taken: the whole line already reaches the width, so the break
      point is a rune position of the line. */
  lemma BreakPointWithinLine(line: string, w: string -> real, width: real)
    requires line != [] && w(line) > width
    ensures 0 <= BreakPoint(line, w, width) < |line|
  {
    assert line[..|line|] == line;
    assert Reaches(line, w, width, |line| - 1);
  }

  // ---------------------------------------------------------------------
  // breakLine

  function EndsWithNewline(s: string): bool {
    |s| > 0 && s[|s| - 1] == '\n'
  }

  /** A piece of a broken line, with a newline appended unless it ends in one. */
  function Terminated(piece: string): string {
    if EndsWithNewline(piece) then piece else piece + "\n"
  }

  function TerminateAll(pieces: seq<string>): (r: seq<string>)
    ensures |r| == |pieces|
  {
    seq(|pieces|, j requires 0 <= j < |pieces| => Terminated(pieces[j]))
  }

  /** `breakLine`: the line itself when `width` is not positive or the line
      fits; otherwise its `SplitSubN` pieces at the break point, each ending
      in a newline. */
  function BreakLine(line: string, w: string -> real, width: real): seq<string> {
    if width > 0.0 && w(line) > width then
      TerminateAll(SplitSubN(line, BreakPoint(line, w, width)))
    else
      [line]
  }

  method BreakLineLoop(line: string, w: string -> real, width: real) returns (lines: seq<string>)
    ensures lines == BreakLine(line, w, width)
  {
    lines := [];
    var lineWidth := w(line);
    if width > 0.0 && lineWidth > width {
      var breakPoint := BreakPointLoop(line, w, width);
      var breakLines := SplitSubNLoop(line, breakPoint);
      ghost var pieces := breakLines;
      for i := 0 to |breakLines|
        invariant |breakLines| == |pieces|
        invariant forall j :: 0 <= j < i ==> breakLines[j] == Terminated(pieces[j])
        invariant forall j :: i <= j < |pieces| ==> breakLines[j] == pieces[j]
      {
        if !EndsWithNewline(breakLines[i]) {
          breakLines := breakLines[i := breakLines[i] + "\n"];
        }
      }
      lines := lines + breakLines;
    } else {
      lines := lines + [line];
    }
  }

  /** What `breakLine` promises: the line unchanged when it fits or no width
      is set; otherwise pieces that each end in a newline, each being the
      corresponding `SplitSubN` piece with at most one newline added, and
      those pieces spell the line. */
  lemma BreakLineShape(line: string, w: string -> real, width: real)
    ensures !(width > 0.0 && w(line) > width) ==> BreakLine(line, w, width) == [line]
    ensures width > 0.0 && w(line) > width ==>
      var pieces := SplitSubN(line, BreakPoint(line, w, width));
      var r := BreakLine(line, w, width);
      && Concat(pieces) == line
      && |r| == |pieces|
      && (forall j :: 0 <= j < |r| ==> EndsWithNewline(r[j]))
      && (forall j :: 0 <= j < |r| ==> r[j] == pieces[j] || r[j] == pieces[j] + "\n")
  {
    if width > 0.0 && w(line) > width {
      SplitSubNConcat(line, BreakPoint(line, w, width));
    }
  }

  /** A too-wide non-empty line whose first rune already reaches the width
      (break point 0) is kept whole, with a newline added. */
  lemma BreakAtZeroKeepsLine(line: string, w: string -> real, width: real)
    requires width > 0.0 && w(line) > width && BreakPoint(line, w, width) == 0
    ensures BreakLine(line, w, width) == [Terminated(line)]
  {
  }

  // ---------------------------------------------------------------------
  // The Text widget's content

  /** A text label: its content is the text last set, broken to its width. */
  class Text {
    var content: string
    var width: real
    const metrics: Metrics

    constructor (width: real, metrics: Metrics)
      ensures content == "" && this.width == width && this.metrics == metrics
    {
      content := "";
      this.width := width;
      this.metrics := metrics;
    }

    /** `SetText`: clear, then append every broken line in order. */
    method SetText(text: string)
      modifies this`content
      ensures content == Concat(BreakLine(text, metrics.width, width))
    {
      Clear();
      var breakLines := BreakLineLoop(text, metrics.width, width);
      for j := 0 to |breakLines|
        invariant content == Concat(breakLines[..j])
      {
        ConcatSnoc(breakLines[..j], breakLines[j]);
        assert breakLines[..j + 1] == breakLines[..j] + [breakLines[j]];
        content := content + breakLines[j];
      }
      assert breakLines[..|breakLines|] == breakLines;
    }

    method Clear()
      modifies this`content
      ensures content == ""
    {
      content := "";
    }

    method SetMaxWidth(w: real)
      modifies this`width
      ensures width == w
    {
      width := w;
    }

    function Content(): string
      reads this
    {
      content
    }

    function String(): string
      reads this
    {
      content
    }
  }

  /** A label with no width (as every slot label and info text has) stores
      exactly the text it was given. */
  lemma UnboundedTextKeepsText(text: string, w: string -> real, width: real)
    requires width <= 0.0
    ensures Concat(BreakLine(text, w, width)) == text
  {
    assert Concat([text]) == text + Concat([]);
  }
}
