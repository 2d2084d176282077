/** The grid randomiser run at start-up and on every lock: a pool seeded with
    one cell of each palette colour, topped up with random colours until it
    covers every cell, then shuffled in place with Fisher-Yates. Random draws
    are parameters: `draws[k]` is the palette index of the k-th top-up draw and
    `js[i]` the swap partner chosen for position `i` of the shuffle. */
module Grid {
  import opened Palette

  /** Swap partners for a shuffle of `n` elements: position `i` swaps with a
      position in `[0, i]`. */
  predicate ValidChoices(js: seq<nat>, n: nat) {
    |js| == n && forall i :: 0 <= i < n ==> js[i] <= i
  }

  /** `[array[i], array[j]] = [array[j], array[i]]` on a sequence: the two
      positions exchange their elements and every other position keeps its own. */
  function Swap<T>(s: seq<T>, i: nat, j: nat): (r: seq<T>)
    requires i < |s| && j < |s|
    ensures |r| == |s| && r[i] == s[j] && r[j] == s[i]
    ensures forall k :: 0 <= k < |s| && k != i && k != j ==> r[k] == s[k]
  {
    s[i := s[j]][j := s[i]]
  }

  /** The shuffle loop run from position `i` down to position 1. */
  function ShuffleFrom<T>(s: seq<T>, js: seq<nat>, i: int): (r: seq<T>)
    requires ValidChoices(js, |s|) && -1 <= i < |s|
    ensures |r| == |s|
    decreases i
  {
    if i <= 0 then s else ShuffleFrom(Swap(s, i, js[i]), js, i - 1)
  }

  /** The whole shuffle of `s` with swap partners `js`. */
  function Shuffled<T>(s: seq<T>, js: seq<nat>): (r: seq<T>)
    requires ValidChoices(js, |s|)
    ensures |r| == |s|
  {
    ShuffleFrom(s, js, |s| - 1)
  }

  lemma SwapPermutes<T>(s: seq<T>, i: nat, j: nat)
    requires i < |s| && j < |s|
    ensures |Swap(s, i, j)| == |s|
    ensures multiset(Swap(s, i, j)) == multiset(s)
  {
    var t := s[i := s[j]];
    assert multiset(t) == multiset(s) - multiset{s[i]} + multiset{s[j]};
    assert multiset(t[j := s[i]]) == multiset(t) - multiset{t[j]} + multiset{s[i]};
  }

  /** Every tail of the shuffle loop leaves a permutation of its input, for any
      swap partners with `js[i] <= i`. */
  lemma {:induction false} ShuffleFromPermutes<T>(s: seq<T>, js: seq<nat>, i: int)
    requires ValidChoices(js, |s|) && -1 <= i < |s|
    ensures |ShuffleFrom(s, js, i)| == |s|
    ensures multiset(ShuffleFrom(s, js, i)) == multiset(s)
    decreases i
  {
    if i > 0 {
      SwapPermutes(s, i, js[i]);
      ShuffleFromPermutes(Swap(s, i, js[i]), js, i - 1);
    }
  }

  /** `shuffle` yields a permutation of its input: same length, same multiset. */
  lemma ShuffledPermutes<T>(s: seq<T>, js: seq<nat>)
    requires ValidChoices(js, |s|)
    ensures |Shuffled(s, js)| == |s|
    ensures multiset(Shuffled(s, js)) == multiset(s)
  {
    ShuffleFromPermutes(s, js, |s| - 1);
  }

  /** `shuffle(array)`: for `i` from the last index down to 1, swap `a[i]`
      with `a[js[i]]`. */
  method Shuffle<T>(a: array<T>, js: seq<nat>)
    requires ValidChoices(js, a.Length)
    modifies a
    ensures a[..] == Shuffled(old(a[..]), js)
    ensures multiset(a[..]) == multiset(old(a[..]))
  {
    var i := a.Length - 1;
    while i > 0
      invariant -1 <= i < a.Length
      invariant ShuffleFrom(a[..], js, i) == Shuffled(old(a[..]), js)
    {
      var j := js[i];
      a[i], a[j] := a[j], a[i];
      i := i - 1;
    }
    ShuffledPermutes(old(a[..]), js);
  }

  /** Length of the pool for `cellCount` cells: the seed alone when there are
      fewer cells than colours. */
  function PoolSize(cellCount: nat): nat {
    if cellCount < |COLORS| then |COLORS| else cellCount
  }

  /** Enough in-range top-up draws to fill a pool for `cellCount` cells. */
  predicate ValidDraws(cellCount: nat, draws: seq<nat>) {
    |COLORS| + |draws| >= cellCount && forall k :: 0 <= k < |draws| ==> draws[k] < |COLORS|
  }

  /** The pool before shuffling: one of each colour, then the top-up draws. */
  function SeededPool(cellCount: nat, draws: seq<nat>): (pool: seq<string>)
    requires ValidDraws(cellCount, draws)
    ensures |pool| == PoolSize(cellCount)
    ensures pool[..|COLORS|] == COLORS
    ensures forall k :: |COLORS| <= k < |pool| ==> pool[k] == COLORS[draws[k - |COLORS|]]
  {
    COLORS + seq(PoolSize(cellCount) - |COLORS|, k requires 0 <= k < PoolSize(cellCount) - |COLORS| => COLORS[draws[k]])
  }

  /** The seeded pool holds only palette colours and every colour at least once. */
  lemma SeededPoolCovers(cellCount: nat, draws: seq<nat>)
    requires ValidDraws(cellCount, draws)
    ensures InPalette(SeededPool(cellCount, draws))
    ensures forall c :: c in COLORS ==> c in SeededPool(cellCount, draws)
  {
    var pool := SeededPool(cellCount, draws);
    forall c | c in COLORS ensures c in pool {
      var k :| 0 <= k < |COLORS| && COLORS[k] == c;
      assert pool[k] == pool[..|COLORS|][k];
    }
    forall k | 0 <= k < |pool| ensures pool[k] in COLORS {
      if k < |COLORS| {
        assert pool[k] == pool[..|COLORS|][k];
      }
    }
  }

  /** The pool after shuffling still has `PoolSize(cellCount)` entries, all of
      them palette colours, and every colour at least once. */
  lemma ShuffledPoolCovers(cellCount: nat, draws: seq<nat>, js: seq<nat>)
    requires ValidDraws(cellCount, draws) && ValidChoices(js, PoolSize(cellCount))
    ensures |Shuffled(SeededPool(cellCount, draws), js)| == PoolSize(cellCount)
    ensures InPalette(Shuffled(SeededPool(cellCount, draws), js))
    ensures forall c :: c in COLORS ==> c in Shuffled(SeededPool(cellCount, draws), js)
  {
    var pool := SeededPool(cellCount, draws);
    var shuffled := Shuffled(pool, js);
    ShuffledPermutes(pool, js);
    SeededPoolCovers(cellCount, draws);
    forall c | c in COLORS ensures c in shuffled {
      assert c in multiset(pool);
    }
    forall k | 0 <= k < |shuffled| ensures shuffled[k] in COLORS {
      assert shuffled[k] in multiset(shuffled);
    }
  }

  /** The pool construction of `randomizeGrid`: seed with the palette, then
      push random colours while the pool is smaller than the cell count. */
  method BuildPool(cellCount: nat, draws: seq<nat>) returns (pool: seq<string>)
    requires ValidDraws(cellCount, draws)
    ensures pool == SeededPool(cellCount, draws)
  {
    pool := [];
    for k := 0 to |COLORS|
      invariant pool == COLORS[..k]
    {
      pool := pool + [COLORS[k]];
    }
    while |pool| < cellCount
      invariant |COLORS| <= |pool| <= PoolSize(cellCount)
      invariant pool[..|COLORS|] == COLORS
      invariant forall k :: |COLORS| <= k < |pool| ==> pool[k] == COLORS[draws[k - |COLORS|]]
      decreases cellCount - |pool|
    {
      pool := pool + [COLORS[draws[|pool| - |COLORS|]]];
    }
  }

  /** A sequence has no more distinct elements than its length. */
  lemma {:induction false} CardinalityOfElements(s: seq<string>)
    ensures |set x | x in s| <= |s|
  {
    if s != [] {
      CardinalityOfElements(s[1..]);
      assert (set x | x in s) == (set x | x in s[1..]) + {s[0]};
    }
  }

  lemma {:induction false} SubsetCardinality(a: set<string>, b: set<string>)
    requires a <= b
    ensures |a| <= |b|
  {
    if a != {} {
      var x :| x in a;
      SubsetCardinality(a - {x}, b - {x});
    }
  }

  /** With fewer cells than colours, some colour is missing from the grid. */
  lemma FewCellsMissColor(grid: seq<string>)
    requires |grid| < |COLORS|
    ensures exists c :: c in COLORS && c !in grid
  {
    PaletteFacts();
    var palette := set x | x in COLORS;
    assert palette == {COLORS[0], COLORS[1], COLORS[2], COLORS[3]};
    assert |palette| == 4;
    CardinalityOfElements(grid);
    var present := set x | x in grid;
    assert |palette - present| > 0 by {
      assert |palette * present| <= |present| by { SubsetCardinality(palette * present, present); }
    }
    var c :| c in palette - present;
  }

  /** `randomizeGrid`: the colours applied to the cells, `pool[0..cellCount)`. */
  method RandomizeGrid(cellCount: nat, draws: seq<nat>, js: seq<nat>) returns (grid: seq<string>)
    requires ValidDraws(cellCount, draws) && ValidChoices(js, PoolSize(cellCount))
    ensures grid == Shuffled(SeededPool(cellCount, draws), js)[..cellCount]
    ensures |grid| == cellCount && InPalette(grid)
    ensures (forall c :: c in COLORS ==> c in grid) <==> cellCount >= |COLORS|
  {
    var pool := BuildPool(cellCount, draws);
    var a := new string[|pool|](k requires 0 <= k < |pool| => pool[k]);
    assert a[..] == pool;
    Shuffle(a, js);
    grid := a[..cellCount];
    ShuffledPoolCovers(cellCount, draws, js);
    if cellCount < |COLORS| {
      FewCellsMissColor(grid);
    } else {
      assert grid == a[..];
    }
  }
}
