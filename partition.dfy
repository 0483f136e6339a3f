/** The per-video shuffle (random.seed(42) followed by random.shuffle) and the
    cut of the shuffled list into a train prefix and a val suffix. */
module Partitioner {

  /** The index random.shuffle draws at position i (randbelow(i + 1)) when it
      shuffles a list of length n right after random.seed(42). Because the seed
      is reset before every video, the draws depend on n and i only. */
  type Draw = (nat, nat) -> nat

  /** randbelow(i + 1) never yields more than i. */
  ghost predicate ValidDraw(draw: Draw) {
    forall n: nat, i: nat :: draw(n, i) <= i
  }

  function Swap<T>(s: seq<T>, i: nat, j: nat): (r: seq<T>)
    requires i < |s| && j < |s|
  {
    s[i := s[j]][j := s[i]]
  }

  /** Fisher-Yates as random.shuffle runs it: positions i - 1 down to 1 of a
      list of length n, each swapped with the position drawn for it. */
  function ShuffleDown<T>(s: seq<T>, draw: Draw, n: nat, i: nat): seq<T>
    requires ValidDraw(draw) && i <= |s|
    decreases i
  {
    if i <= 1 then s else ShuffleDown(Swap(s, i - 1, draw(n, i - 1)), draw, n, i - 1)
  }

  /** random.seed(42); random.shuffle(s). */
  function Shuffled<T>(s: seq<T>, draw: Draw): seq<T>
    requires ValidDraw(draw)
  {
    ShuffleDown(s, draw, |s|, |s|)
  }

  lemma {:induction false} ShuffleDownPermutes<T>(s: seq<T>, draw: Draw, n: nat, i: nat)
    requires ValidDraw(draw) && i <= |s|
    ensures |ShuffleDown(s, draw, n, i)| == |s|
    ensures multiset(ShuffleDown(s, draw, n, i)) == multiset(s)
    decreases i
  {
    if i > 1 {
      var j := draw(n, i - 1);
      var t := Swap(s, i - 1, j);
      assert multiset(t) == multiset(s) by {
        if i - 1 != j {
          assert multiset(s[i - 1 := s[j]]) == multiset(s) - multiset{s[i - 1]} + multiset{s[j]};
        }
      }
      ShuffleDownPermutes(t, draw, n, i - 1);
    }
  }

  /** The shuffle loses and duplicates nothing: the result is a permutation. */
  lemma ShufflePermutes<T>(s: seq<T>, draw: Draw)
    requires ValidDraw(draw)
    ensures |Shuffled(s, draw)| == |s|
    ensures multiset(Shuffled(s, draw)) == multiset(s)
  {
    ShuffleDownPermutes(s, draw, |s|, |s|);
  }

  /** The positions 0 .. n - 1. */
  function Iota(n: nat): seq<nat> {
    seq(n, k => k)
  }

  /** The list whose k-th element is s[order[k]]. */
  function Pick<T>(s: seq<T>, order: seq<nat>): seq<T>
    requires forall k :: 0 <= k < |order| ==> order[k] < |s|
  {
    seq(|order|, k requires 0 <= k < |order| => s[order[k]])
  }

  lemma {:induction false} ShuffleDownPick<T>(s: seq<T>, order: seq<nat>, draw: Draw, n: nat, i: nat)
    requires ValidDraw(draw) && i <= |order|
    requires forall k :: 0 <= k < |order| ==> order[k] < |s|
    ensures var r := ShuffleDown<nat>(order, draw, n, i); forall k :: 0 <= k < |r| ==> r[k] < |s|
    ensures Pick(s, ShuffleDown<nat>(order, draw, n, i)) == ShuffleDown(Pick(s, order), draw, n, i)
    decreases i
  {
    ShuffleDownPermutes(order, draw, n, i);
    var r := ShuffleDown<nat>(order, draw, n, i);
    forall k | 0 <= k < |r| ensures r[k] < |s| {
      assert r[k] in multiset(r);
    }
    if i > 1 {
      var j := draw(n, i - 1);
      var t := Swap(order, i - 1, j);
      assert Pick(s, t) == Swap(Pick(s, order), i - 1, j);
      ShuffleDownPick(s, t, draw, n, i - 1);
    }
  }

  /** The shuffle depends on the length of the list only: every list of length
      n is rearranged by the same permutation ShuffleOrder(n) of 0 .. n - 1. */
  function ShuffleOrder(n: nat, draw: Draw): seq<nat>
    requires ValidDraw(draw)
  {
    Shuffled<nat>(Iota(n), draw)
  }

  lemma ShuffleByLength<T>(s: seq<T>, draw: Draw)
    requires ValidDraw(draw)
    ensures multiset(ShuffleOrder(|s|, draw)) == multiset(Iota(|s|))
    ensures forall k :: 0 <= k < |ShuffleOrder(|s|, draw)| ==> ShuffleOrder(|s|, draw)[k] < |s|
    ensures Shuffled(s, draw) == Pick(s, ShuffleOrder(|s|, draw))
  {
    var n := |s|;
    ShuffleDownPick(s, Iota(n), draw, n, n);
    ShufflePermutes<nat>(Iota(n), draw);
    assert Pick(s, Iota(n)) == s;
  }

  /** Python's int() on a number: truncation toward zero. */
  function Trunc(x: real): (r: int)
    ensures x >= 0.0 ==> r as real <= x < r as real + 1.0
    ensures x < 0.0 ==> r as real - 1.0 < x <= r as real
  {
    if x >= 0.0 then x.Floor else -((-x).Floor)
  }

  /** Python's slice bound k on a list of length n: a negative k counts from
      the end, and the result is clipped to 0 .. n. */
  function SliceBound(k: int, n: nat): (b: nat)
    ensures b <= n
    ensures 0 <= k <= n ==> b == k
    ensures k > n ==> b == n
    ensures k < 0 && k + n >= 0 ==> b == k + n
    ensures k + n < 0 ==> b == 0
  {
    if k < 0 then (if k + n < 0 then 0 else k + n) else if k > n then n else k
  }

  /** split_idx = int(len(all_frames) * split), as all_frames[:split_idx] reads it. */
  function SplitIndex(n: nat, split: real): (idx: nat)
    ensures idx <= n
    ensures 0.0 <= split <= 1.0 ==> idx == (n as real * split).Floor
    ensures split >= 1.0 ==> idx == n
  {
    assert 0.0 <= split <= 1.0 ==> 0.0 <= n as real * split <= n as real;
    assert split >= 1.0 ==> n as real * split >= n as real;
    SliceBound(Trunc(n as real * split), n)
  }

  /** The train prefix and the val suffix of the shuffled list. */
  function Partition<T>(s: seq<T>, split: real): (p: (seq<T>, seq<T>))
    ensures p.0 + p.1 == s
    ensures |p.0| == SplitIndex(|s|, split) && |p.1| == |s| - SplitIndex(|s|, split)
    ensures 0.0 <= split <= 1.0 ==>
      |p.0| == (|s| as real * split).Floor && |p.1| == |s| - (|s| as real * split).Floor
    ensures split >= 1.0 ==> p.0 == s && p.1 == []
    ensures |s| == 0 ==> p.0 == [] && p.1 == []
  {
    var idx := SplitIndex(|s|, split);
    (s[..idx], s[idx..])
  }

  /** Shuffling and cutting lose and duplicate nothing: train and val together
      hold exactly the boxes of the candidate list. */
  lemma PartitionCovers<T>(s: seq<T>, split: real, draw: Draw)
    requires ValidDraw(draw)
    ensures var p := Partition(Shuffled(s, draw), split);
      |p.0| + |p.1| == |s| && multiset(p.0) + multiset(p.1) == multiset(s)
  {
    var t := Shuffled(s, draw);
    ShufflePermutes(s, draw);
    var p := Partition(t, split);
    assert multiset(p.0 + p.1) == multiset(p.0) + multiset(p.1);
  }

  /** The split ratio the source is called with. */
  const DefaultSplit: real := 0.8

  /** The worked case: 14 candidates at the default ratio 0.8 give 11 train
      and 3 val boxes. */
  lemma FourteenAtDefaultSplit<T>(s: seq<T>)
    requires |s| == 14
    ensures |Partition(s, DefaultSplit).0| == 11 && |Partition(s, DefaultSplit).1| == 3
  {
  }
}
