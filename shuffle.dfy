/** `shuffleArray` (src/game.js:129-136): a Fisher-Yates shuffle of a copy. */
module Shuffle {
  import opened Runtime

  /** Values of `Math.random()`: every draw lies in [0, 1). */
  ghost predicate IsRandomStream(random: nat -> real)
  {
    forall k :: 0.0 <= random(k) < 1.0
  }

  /** The number of draws `shuffleArray` takes on `n` elements: one per index
      from `n - 1` down to 1. */
  function ShuffleDraws(n: nat): nat
  {
    if n == 0 then 0 else n - 1
  }

  /** Copies `input` into a fresh array and, for `i` from the last index down to
      1, swaps position `i` with a position `j` in [0, i] drawn from `random`
      (draw number `n - 1 - i`). The input is a value, so it is left as it was;
      the result holds the same elements. */
  method ShuffleArray<T>(input: seq<T>, random: nat -> real) returns (shuffled: seq<T>)
    requires IsRandomStream(random)
    ensures |shuffled| == |input|
    ensures multiset(shuffled) == multiset(input)
  {
    var n := |input|;
    var a := new T[n](k requires 0 <= k < n => input[k]);
    assert a[..] == input;
    var i := n - 1;
    while i > 0
      invariant -1 <= i < n
      invariant n > 0 ==> 0 <= i
      invariant multiset(a[..]) == multiset(input)
      decreases i
    {
      var j := RandomIndex(random(n - 1 - i), i + 1);
      a[i], a[j] := a[j], a[i];
      i := i - 1;
    }
    shuffled := a[..];
  }
}
