/** `np.random.shuffle` on the first axis of an array: numpy's Fisher-Yates loop,
    which for i from n-1 down to 1 swaps slot i with a slot j drawn from [0, i].
    The random draws are a parameter: `rng(i) % (i + 1)` is the j chosen for i. */
module Shuffle {
  import opened Common

  function Swap(s: seq<Image>, i: nat, j: nat): (r: seq<Image>)
    requires i < |s| && j < |s|
    ensures |r| == |s| && r[i] == s[j] && r[j] == s[i]
    ensures forall k :: 0 <= k < |s| && k != i && k != j ==> r[k] == s[k]
  {
    s[i := s[j]][j := s[i]]
  }

  lemma SwapPermutes(s: seq<Image>, i: nat, j: nat)
    requires i < |s| && j < |s|
    ensures multiset(Swap(s, i, j)) == multiset(s)
  {
    var t := s[i := s[j]];
    assert multiset(t) == multiset(s) - multiset{s[i]} + multiset{s[j]};
    assert multiset(t[j := s[i]]) == multiset(t) - multiset{t[j]} + multiset{s[i]};
  }

  /** The shuffle after the slots `count - 1` down to 1 have been processed. */
  function ShuffleFrom(s: seq<Image>, rng: nat -> nat, count: nat): (r: seq<Image>)
    requires count <= |s|
    ensures |r| == |s|
    ensures multiset(r) == multiset(s)
    decreases count
  {
    if count <= 1 then s
    else
      SwapPermutes(s, count - 1, rng(count - 1) % count);
      ShuffleFrom(Swap(s, count - 1, rng(count - 1) % count), rng, count - 1)
  }

  /** The order `np.random.shuffle` leaves the sequence in, for the draws `rng`.
      Whatever the draws, it is a permutation: the same images, as many times each. */
  function Shuffled(s: seq<Image>, rng: nat -> nat): (r: seq<Image>)
    ensures |r| == |s|
    ensures multiset(r) == multiset(s)
  {
    ShuffleFrom(s, rng, |s|)
  }

  /** An image is in the shuffled sequence exactly when it was in the sequence. */
  lemma ShuffledKeepsImages(s: seq<Image>, rng: nat -> nat)
    ensures forall x :: x in s <==> x in Shuffled(s, rng)
  {
    var r := Shuffled(s, rng);
    forall x ensures x in s <==> x in r {
      assert x in s <==> x in multiset(s);
      assert x in r <==> x in multiset(r);
    }
  }

  /** The draws under which every slot is swapped with itself. */
  ghost predicate KeepsOrder(rng: nat -> nat) {
    forall i: nat :: rng(i) % (i + 1) == i
  }

  lemma {:induction false} ShuffleFromKeepsOrder(s: seq<Image>, rng: nat -> nat, count: nat)
    requires count <= |s| && KeepsOrder(rng)
    ensures ShuffleFrom(s, rng, count) == s
    decreases count
  {
    if count > 1 {
      var i: nat := count - 1;
      assert rng(i) % (i + 1) == i;
      assert Swap(s, i, i) == s;
      ShuffleFromKeepsOrder(s, rng, count - 1);
    }
  }

  /** One possible outcome of the shuffle is the unchanged order. */
  lemma ShuffleMayKeepOrder(s: seq<Image>, rng: nat -> nat)
    requires KeepsOrder(rng)
    ensures Shuffled(s, rng) == s
  {
    ShuffleFromKeepsOrder(s, rng, |s|);
  }

  /** The in-place shuffle, proved to leave the array in the order `Shuffled` gives. */
  method ShuffleInPlace(a: array<Image>, rng: nat -> nat)
    modifies a
    ensures a[..] == Shuffled(old(a[..]), rng)
  {
    ghost var s0 := a[..];
    var i := a.Length;
    while i > 1
      invariant 0 <= i <= a.Length
      invariant ShuffleFrom(a[..], rng, i) == ShuffleFrom(s0, rng, |s0|)
      decreases i
    {
      var p := i - 1;
      var j := rng(p) % i;
      ghost var before := a[..];
      assert ShuffleFrom(before, rng, i) == ShuffleFrom(Swap(before, p, j), rng, p);
      var t := a[p];
      a[p] := a[j];
      a[j] := t;
      assert a[..] == Swap(before, p, j);
      i := p;
    }
  }
}
