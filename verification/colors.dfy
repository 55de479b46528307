/** The colour allocator: a working queue refilled from the selected palette,
    handing colours out cyclically. */
module Palette {

  import Arith

  /** Which of the two stored palettes `palette` currently is (none before
      the first selection). */
  datatype Choice = Unselected | Light | Dark

  /** The stored palettes are kept in the state because the selected one is
      shuffled in place and re-selecting it later sees the shuffled order. */
  datatype Colors = Colors(light: seq<string>, dark: seq<string>, choice: Choice, used: seq<string>)

  const LightPalette: seq<string> := [
    "#6fbf73", "#ea605d", "#64ffda", "#ff9800", "#a6d4fa",
    "#f2aeae", "#2196f3", "#ffb74d", "#4db6ac", "#e040fb",
    "#ffd699", "#536dfe", "#ffeb3b", "#4caf50", "#f44336",
    "#b7deb8", "#4dabf5", "#18ffff", "#9fa8da", "#ea80fc"
  ]

  const DarkPalette: seq<string> := [
    "#2e7d32", "#e53935", "#00acc1", "#af52bf", "#af6200",
    "#5e35b1", "#c62828", "#795548", "#2196f3", "#4caf50",
    "#6e6d19", "#fb8c00", "#7c88cc", "#1c54b2", "#33877c",
    "#8f9a27"
  ]

  /** What `pop` answers when the queue yields nothing usable. */
  const Fallback: string := "inherit"

  function Initial(): Colors {
    Colors(LightPalette, DarkPalette, Unselected, [])
  }

  /** The palette currently selected; empty before any selection. */
  function Palette(c: Colors): seq<string> {
    match c.choice
    case Unselected => []
    case Light => c.light
    case Dark => c.dark
  }

  /** No colour is the empty string (which `pop` would turn into the fallback). */
  predicate NoBlank(p: seq<string>) {
    forall i :: 0 <= i < |p| ==> p[i] != ""
  }

  /** Selects the 20-colour or the 16-colour palette; the queue is untouched. */
  function SetUseLightPalette(c: Colors, useLight: bool): (r: Colors)
    ensures Palette(r) == if useLight then c.light else c.dark
    ensures r.used == c.used && r.light == c.light && r.dark == c.dark
  {
    c.(choice := if useLight then Light else Dark)
  }

  lemma {:induction false} InitialPalettes(useLight: bool)
    ensures |Palette(SetUseLightPalette(Initial(), useLight))| == if useLight then 20 else 16
    ensures NoBlank(Palette(SetUseLightPalette(Initial(), useLight)))
  {
  }

  /** Takes the head of the queue, refilling the queue from the palette first
      when it is empty; answers the fallback when nothing (or a blank) comes out. */
  function Pop(c: Colors): (res: (string, Colors))
    ensures res.1 == c.(used := res.1.used)
    ensures |c.used| == 0 && |Palette(c)| > 0 && Palette(c)[0] != "" ==>
      res.0 == Palette(c)[0] && res.1.used == Palette(c)[1..]
    ensures |c.used| == 0 && |Palette(c)| == 0 ==> res.0 == Fallback && res.1.used == []
    ensures |c.used| > 0 && c.used[0] != "" ==> res.0 == c.used[0] && res.1.used == c.used[1..]
  {
    var queue := if |c.used| == 0 then Palette(c) else c.used;
    if |queue| == 0 then (Fallback, c.(used := []))
    else (if queue[0] == "" then Fallback else queue[0], c.(used := queue[1..]))
  }

  /** Empties the queue so that the next `Pop` starts again at the palette's head. */
  function Reset(c: Colors): (r: Colors)
    ensures r.used == [] && Palette(r) == Palette(c)
    ensures r.light == c.light && r.dark == c.dark && r.choice == c.choice
  {
    c.(used := [])
  }

  /** Fisher-Yates: for `i` from the last index down to 1, swap position `i`
      with position `rand(i) mod (i + 1)`; `rand` stands for `Math.random`. */
  method FisherYates(p: seq<string>, rand: nat -> nat) returns (q: seq<string>)
    ensures |q| == |p|
    ensures multiset(q) == multiset(p)
  {
    q := p;
    var i := |q| - 1;
    while i > 0
      invariant |q| == |p|
      invariant i < |q|
      invariant multiset(q) == multiset(p)
      decreases i
    {
      var j := rand(i) % (i + 1);
      q := q[i := q[j]][j := q[i]];
      i := i - 1;
    }
  }

  /** Permutes the selected palette in place; the queue and the other stored
      palette are untouched. */
  method Shuffle(c: Colors, rand: nat -> nat) returns (r: Colors)
    ensures |Palette(r)| == |Palette(c)| && multiset(Palette(r)) == multiset(Palette(c))
    ensures r.used == c.used && r.choice == c.choice
    ensures c.choice != Light ==> r.light == c.light
    ensures c.choice != Dark ==> r.dark == c.dark
  {
    match c.choice {
      case Unselected =>
        r := c;
      case Light =>
        var q := FisherYates(c.light, rand);
        r := c.(light := q);
      case Dark =>
        var q := FisherYates(c.dark, rand);
        r := c.(dark := q);
    }
  }

  /** The colours of `k` successive pops, and the allocator afterwards. */
  function PopMany(c: Colors, k: nat): (r: (seq<string>, Colors))
    ensures |r.0| == k
    ensures r.1 == c.(used := r.1.used)
    decreases k
  {
    if k == 0 then ([], c)
    else
      var first := Pop(c);
      var rest := PopMany(first.1, k - 1);
      ([first.0] + rest.0, rest.1)
  }

  lemma {:induction false} ModStep(m: nat, i: nat, n: nat)
    requires m < n && i >= 1
    ensures (((m + 1) % n) + (i - 1)) % n == (m + i) % n
  {
    if m + 1 == n {
      var x := i - 1;
      assert (m + 1) % n == 0 by { Arith.ModUnique(m + 1, n, 1, 0); }
      Arith.ModUnique(m + i, n, x / n + 1, x % n);
    } else {
      Arith.ModUnique(m + 1, n, 0, m + 1);
    }
  }

  /** Invariant of a cycle in progress: `m` colours of the palette have been
      handed out and the queue holds the rest. */
  predicate InCycle(c: Colors, m: nat) {
    |Palette(c)| > 0 && NoBlank(Palette(c)) && m < |Palette(c)| &&
    c.used == if m == 0 then [] else Palette(c)[m..]
  }

  /** One pop inside a cycle answers the m-th colour and moves to m + 1 mod n. */
  lemma {:induction false} PopInCycle(c: Colors, m: nat)
    requires InCycle(c, m)
    ensures Pop(c).0 == Palette(c)[m]
    ensures Palette(Pop(c).1) == Palette(c)
    ensures InCycle(Pop(c).1, (m + 1) % |Palette(c)|)
  {
    var p := Palette(c);
    var n := |p|;
    var first := Pop(c);
    assert first.1.used == p[m + 1..];
    if m + 1 == n {
      Arith.ModUnique(m + 1, n, 1, 0);
      assert p[m + 1..] == [];
    } else {
      Arith.ModUnique(m + 1, n, 0, m + 1);
    }
  }

  /** Part way through a cycle (`m` colours of it already handed out), the
      following pops continue cyclically through the palette. */
  lemma {:induction false} CycleFrom(c: Colors, m: nat, k: nat)
    requires InCycle(c, m)
    ensures forall i :: 0 <= i < k ==> PopMany(c, k).0[i] == Palette(c)[(m + i) % |Palette(c)|]
    decreases k
  {
    if k > 0 {
      var p := Palette(c);
      var n := |p|;
      var first := Pop(c);
      var m' := (m + 1) % n;
      PopInCycle(c, m);
      CycleFrom(first.1, m', k - 1);
      var rest := PopMany(first.1, k - 1).0;
      assert PopMany(c, k).0 == [first.0] + rest;
      CycleCons(p, m, first.0, rest);
    }
  }

  /** Prepending the m-th colour to a run that cycles from m + 1 gives a run
      that cycles from m. */
  lemma {:induction false} CycleCons(p: seq<string>, m: nat, y: string, rest: seq<string>)
    requires m < |p| && y == p[m]
    requires forall i :: 0 <= i < |rest| ==> rest[i] == p[((m + 1) % |p| + i) % |p|]
    ensures forall i :: 0 <= i < |rest| + 1 ==> ([y] + rest)[i] == p[(m + i) % |p|]
  {
    var n := |p|;
    var out := [y] + rest;
    forall i | 0 <= i < |rest| + 1 ensures out[i] == p[(m + i) % n] {
      if i == 0 {
        Arith.ModUnique(m, n, 0, m);
      } else {
        assert out[i] == rest[i - 1];
        ModStep(m, i, n);
      }
    }
  }

  /** After a reset, the k-th pop (counting from 1) answers palette[(k - 1) mod n]:
      the palette is handed out in order and then repeats. */
  lemma {:induction false} PopsCycleAfterReset(c: Colors, k: nat)
    requires |Palette(c)| > 0 && NoBlank(Palette(c))
    ensures forall i :: 0 <= i < k ==> PopMany(Reset(c), k).0[i] == Palette(c)[i % |Palette(c)|]
  {
    CycleFrom(Reset(c), 0, k);
  }

  /** An allocator with no palette selected answers the fallback every time. */
  lemma {:induction false} EmptyPaletteFallback(c: Colors, k: nat)
    requires Palette(c) == [] && c.used == []
    ensures forall i :: 0 <= i < k ==> PopMany(c, k).0[i] == Fallback
    decreases k
  {
    if k > 0 {
      EmptyPaletteFallback(Pop(c).1, k - 1);
      var out := PopMany(c, k).0;
      assert out == [Fallback] + PopMany(Pop(c).1, k - 1).0;
    }
  }
}
