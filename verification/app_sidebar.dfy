/** The resizable sidebar: its stored width at start-up and the clamped
    update applied on every mouse move while a resize is in progress. */
module Sidebar {

  import opened Wrappers

  const MinWidth: int := 170
  const MaxWidth: int := 500
  const DefaultWidth: int := 223

  predicate InRange(w: int) {
    MinWidth <= w <= MaxWidth
  }

  /** The width at start-up from the stored setting as `parseInt` reads it
      (`None` when it is missing or not a number): zero and a missing value
      fall back to the default, any other value is taken as it is. */
  function InitialWidth(stored: Option<int>): (w: int)
    ensures w != 0
    ensures stored.None? ==> w == DefaultWidth
    ensures stored.Some? && stored.value != 0 ==> w == stored.value
  {
    match stored
    case None => DefaultWidth
    case Some(v) => if v == 0 then DefaultWidth else v
  }

  /** A mouse move: ignored unless a resize was started, otherwise the width
      moves by `dx` and is clamped into the range. */
  function ResizeSidebar(resizeStarted: bool, width: int, dx: int): (w: int)
    ensures !resizeStarted ==> w == width
    ensures resizeStarted ==> InRange(w)
    ensures resizeStarted && InRange(width + dx) ==> w == width + dx
    ensures resizeStarted && width + dx < MinWidth ==> w == MinWidth
    ensures resizeStarted && width + dx > MaxWidth ==> w == MaxWidth
  {
    if !resizeStarted then width
    else
      var w := width + dx;
      if w < MinWidth then MinWidth
      else if w > MaxWidth then MaxWidth
      else w
  }

  /** The width a resize stores is the width read back at the next start:
      a clamped width is never zero, so it never falls back to the default. */
  lemma {:induction false} StoredWidthSurvivesReload(width: int, dx: int)
    ensures InitialWidth(Some(ResizeSidebar(true, width, dx))) == ResizeSidebar(true, width, dx)
  {
    assert InRange(ResizeSidebar(true, width, dx));
  }

  /** The width after a drag of several moves. */
  function Drag(width: int, moves: seq<int>): int
    decreases |moves|
  {
    if |moves| == 0 then width else Drag(ResizeSidebar(true, width, moves[0]), moves[1..])
  }

  /** Clamping is monotone: a larger width or a larger move never gives a
      smaller result. */
  lemma {:induction false} ResizeMonotone(a: int, b: int, dx: int, dy: int)
    requires a + dx <= b + dy
    ensures ResizeSidebar(true, a, dx) <= ResizeSidebar(true, b, dy)
  {
  }

  /** A drag whose moves never leave the range ends where the moves add up
      to, and any non-empty drag ends in the range. */
  lemma {:induction false} DragInRange(width: int, moves: seq<int>)
    ensures |moves| > 0 ==> InRange(Drag(width, moves))
    ensures (forall k :: 0 <= k <= |moves| ==> InRange(width + Sum(moves[..k]))) ==>
      Drag(width, moves) == width + Sum(moves)
    decreases |moves|
  {
    if |moves| > 0 {
      var next := ResizeSidebar(true, width, moves[0]);
      DragInRange(next, moves[1..]);
      if forall k :: 0 <= k <= |moves| ==> InRange(width + Sum(moves[..k])) {
        assert moves[..1] == [moves[0]];
        assert Sum([moves[0]]) == moves[0] + Sum([]);
        forall k | 0 <= k <= |moves[1..]| ensures InRange(next + Sum(moves[1..][..k])) {
          SumCons(moves[0], moves[1..][..k]);
          assert moves[..k + 1] == [moves[0]] + moves[1..][..k];
        }
        SumCons(moves[0], moves[1..]);
        assert moves == [moves[0]] + moves[1..];
      }
    }
  }

  function Sum(xs: seq<int>): int
    decreases |xs|
  {
    if |xs| == 0 then 0 else xs[0] + Sum(xs[1..])
  }

  lemma {:induction false} SumCons(x: int, xs: seq<int>)
    ensures Sum([x] + xs) == x + Sum(xs)
  {
    assert ([x] + xs)[1..] == xs;
  }
}
