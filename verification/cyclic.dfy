/** The wrap-around index rule shared by `Switch.SetIndex` and
    `AudioPlayer.SetPlayIndex`. */
module Cyclic {

  /** The index a selector over `n` entries keeps when asked for `id`:
      past the end wraps to the first entry, before the start to the last. */
  function Wrap(id: int, n: nat): (r: int)
    ensures n > 0 ==> 0 <= r < n
    ensures 0 <= id < n ==> r == id
    ensures id >= n ==> r == 0
    ensures id < 0 ==> r == n - 1
  {
    if id > n - 1 then 0 else if id < 0 then n - 1 else id
  }

  /** The index after a run of next (true) and previous (false) steps. */
  function Walk(index: int, steps: seq<bool>, n: nat): int
    decreases |steps|
  {
    if steps == [] then index
    else Walk(Wrap(if steps[0] then index + 1 else index - 1, n), steps[1..], n)
  }

  /** Any run of next/previous steps over a non-empty list keeps the index in
      range, whatever index it started from. */
  lemma {:induction false} WalkStaysInRange(index: int, steps: seq<bool>, n: nat)
    requires n > 0 && steps != []
    ensures 0 <= Walk(index, steps, n) < n
    decreases |steps|
  {
    var i := Wrap(if steps[0] then index + 1 else index - 1, n);
    if |steps| > 1 {
      WalkStaysInRange(i, steps[1..], n);
    }
  }

  /** Walking two runs one after the other is walking their concatenation. */
  lemma {:induction false} WalkAppend(index: int, s1: seq<bool>, s2: seq<bool>, n: nat)
    ensures Walk(index, s1 + s2, n) == Walk(Walk(index, s1, n), s2, n)
    decreases |s1|
  {
    if s1 == [] {
      assert s1 + s2 == s2;
    } else {
      assert (s1 + s2)[1..] == s1[1..] + s2;
      WalkAppend(Wrap(if s1[0] then index + 1 else index - 1, n), s1[1..], s2, n);
    }
  }

  /** From an in-range index, a next step followed by a previous step
      returns to the same index, and the other way round. */
  lemma NextPrevInverse(index: int, n: nat)
    requires 0 <= index < n
    ensures Walk(index, [true, false], n) == index
    ensures Walk(index, [false, true], n) == index
  {
    assert [true, false][1..] == [false] && [false, true][1..] == [true];
  }
}
