/**
 * The random choices of the game and the in-place Fisher-Yates shuffle that
 * both the initial deck (constants.ts) and the draw pile (App.tsx) use.
 */
module Shuffle {

  import opened Seqs

  /**
   * The successive results of `Math.random()`: the k-th call returns `r(k)`.
   * Uniformity is not modelled, only the range.
   */
  type RandomStream = nat -> real

  ghost predicate IsUnitStream(r: RandomStream)
  {
    forall k: nat :: 0.0 <= r(k) < 1.0
  }

  /** The stream that is left after the first `n` calls. */
  function Drop(r: RandomStream, n: nat): (r': RandomStream)
    ensures forall k: nat :: r'(k) == r(k + n)
  {
    (k: nat) => r(k + n)
  }

  lemma DropUnit(r: RandomStream, n: nat)
    requires IsUnitStream(r)
    ensures IsUnitStream(Drop(r, n))
  {
    forall k: nat ensures 0.0 <= Drop(r, n)(k) < 1.0 {
      assert Drop(r, n)(k) == r(k + n);
    }
  }

  /** `Math.floor(u * n)` for a draw `u` of `Math.random()`: an index in `[0, n)`. */
  function RandomIndex(u: real, n: nat): (j: nat)
    requires 0.0 <= u < 1.0 && 0 < n
    ensures j < n
  {
    var x := u * n as real;
    ScaleBelow(u, n as real);
    FloorBelow(x, n);
    x.Floor
  }

  lemma ScaleBelow(u: real, m: real)
    requires 0.0 <= u < 1.0 && 0.0 < m
    ensures 0.0 <= u * m < m
  {
    assert (1.0 - u) * m > 0.0;
  }

  lemma FloorBelow(x: real, n: int)
    requires 0.0 <= x < n as real
    ensures 0 <= x.Floor < n
  {
  }

  /** `[s[i], s[j]] = [s[j], s[i]]`. */
  function Swap<T>(s: seq<T>, i: nat, j: nat): seq<T>
    requires i < |s| && j < |s|
  {
    s[i := s[j]][j := s[i]]
  }

  /** A swap only reorders: the same length and the same multiset of elements. */
  lemma SwapPermutes<T>(s: seq<T>, i: nat, j: nat)
    requires i < |s| && j < |s|
    ensures |Swap(s, i, j)| == |s|
    ensures multiset(Swap(s, i, j)) == multiset(s)
  {
  }

  /** Swap indices for the loop over `n` elements: step `i` may swap with any position up to `i`. */
  predicate InRange(p: seq<int>)
  {
    forall i :: 0 <= i < |p| ==> 0 <= p[i] <= i
  }

  /**
   * The indices the loop over `n` elements draws from `r`: step `i` makes
   * draw `n - 1 - i` (the first step, at the last index, makes draw 0) and
   * swaps with `Math.floor(u * (i + 1))`.
   */
  function Picks(r: RandomStream, n: nat): (p: seq<int>)
    requires IsUnitStream(r)
    ensures |p| == n && InRange(p)
    ensures forall i :: 0 <= i < n ==> p[i] == RandomIndex(r(n - 1 - i), i + 1)
  {
    var p := seq(n, i requires 0 <= i < n => RandomIndex(r(n - 1 - i), i + 1));
    forall i | 0 <= i < n ensures p[i] == RandomIndex(r(n - 1 - i), i + 1) < i + 1 {
    }
    p
  }

  /** The shuffle loop from index `i` down to 1, step `k` swapping `k` with `p[k]`. */
  function ShuffleFrom<T>(s: seq<T>, p: seq<int>, i: nat): seq<T>
    requires |p| == |s| && InRange(p) && i < |s|
    decreases i
  {
    if i == 0 then s
    else ShuffleFrom(Swap(s, i, p[i]), p, i - 1)
  }

  /** The whole loop `for (i = length - 1; i > 0; i--)`, with the draws of `r`. */
  function Shuffled<T>(s: seq<T>, r: RandomStream): seq<T>
    requires IsUnitStream(r)
  {
    if |s| == 0 then s else ShuffleFrom(s, Picks(r, |s|), |s| - 1)
  }

  /** Every step is a swap, so the loop only reorders: the same length and the same multiset. */
  lemma {:induction false} ShuffleFromPermutes<T>(s: seq<T>, p: seq<int>, i: nat)
    requires |p| == |s| && InRange(p) && i < |s|
    ensures |ShuffleFrom(s, p, i)| == |s|
    ensures multiset(ShuffleFrom(s, p, i)) == multiset(s)
    decreases i
  {
    if i > 0 {
      var t := Swap(s, i, p[i]);
      SwapPermutes(s, i, p[i]);
      ShuffleFromPermutes(t, p, i - 1);
    }
  }

  /** The shuffled sequence is a permutation of its input. */
  lemma ShuffledPermutes<T>(s: seq<T>, r: RandomStream)
    requires IsUnitStream(r)
    ensures |Shuffled(s, r)| == |s|
    ensures multiset(Shuffled(s, r)) == multiset(s)
  {
    if |s| > 0 {
      ShuffleFromPermutes(s, Picks(r, |s|), |s| - 1);
    }
  }

  /** Applying a function to each element commutes with a swap. */
  lemma MapSwap<T, U>(s: seq<T>, i: nat, j: nat, f: T -> U)
    requires i < |s| && j < |s|
    ensures Map(Swap(s, i, j), f) == Swap(Map(s, f), i, j)
  {
  }

  /** The shuffle only moves elements, so it commutes with applying a function to each of them. */
  lemma {:induction false} ShuffleFromMap<T, U>(s: seq<T>, p: seq<int>, i: nat, f: T -> U)
    requires |p| == |s| && InRange(p) && i < |s|
    ensures Map(ShuffleFrom(s, p, i), f) == ShuffleFrom(Map(s, f), p, i)
    decreases i
  {
    if i > 0 {
      MapSwap(s, i, p[i], f);
      ShuffleFromMap(Swap(s, i, p[i]), p, i - 1, f);
    }
  }

  lemma ShuffledMap<T, U>(s: seq<T>, r: RandomStream, f: T -> U)
    requires IsUnitStream(r)
    ensures Map(Shuffled(s, r), f) == Shuffled(Map(s, f), r)
  {
    if |s| > 0 {
      ShuffleFromMap(s, Picks(r, |s|), |s| - 1, f);
    }
  }

  /** The in-place shuffle loop; draw k of `r` is made at the k-th iteration. */
  method ShuffleInPlace<T>(a: array<T>, r: RandomStream)
    requires IsUnitStream(r)
    modifies a
    ensures a[..] == Shuffled(old(a[..]), r)
  {
    ghost var p := Picks(r, a.Length);
    var i := a.Length - 1;
    while i > 0
      invariant -1 <= i < a.Length
      invariant i == -1 ==> a.Length == 0
      invariant i >= 0 ==> Shuffled(old(a[..]), r) == ShuffleFrom(a[..], p, i)
      decreases i
    {
      var j := RandomIndex(r(a.Length - 1 - i), i + 1);
      assert j == p[i];
      a[i], a[j] := a[j], a[i];
      i := i - 1;
    }
  }

  /** Copy `s` into a fresh array, shuffle it in place and read it back. */
  method ShuffleCopy<T>(s: seq<T>, r: RandomStream) returns (t: seq<T>)
    requires IsUnitStream(r)
    ensures t == Shuffled(s, r)
  {
    var a := new T[|s|](k requires 0 <= k < |s| => s[k]);
    assert a[..] == s;
    ShuffleInPlace(a, r);
    t := a[..];
  }
}
