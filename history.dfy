/** The refined-image history buffer: a module-level numpy array of images that
    grows by concatenation until it holds `batch_size * 1000` images, after which
    each insert overwrites its first half-batch in place; every insert ends with an
    in-place shuffle. A read is a numpy slice, i.e. a view that aliases the array. */
module History {
  import opened Common
  import opened Shuffle
  import opened Params

  /** The buffer's contents just before the shuffle of a successful insert:
      appended below capacity, written over the first `|half|` slots at capacity. */
  function Staged(c: seq<Image>, half: seq<Image>, maxSize: nat): (r: seq<Image>)
    requires |c| < maxSize || |half| <= |c|
    ensures |c| < maxSize ==> |r| == |c| + |half| && r[..|c|] == c && r[|c|..] == half
    ensures maxSize <= |c| ==> |r| == |c| && r[..|half|] == half && r[|half|..] == c[|half|..]
  {
    if |c| < maxSize then c + half else half + c[|half|..]
  }

  /** The buffer's contents after a successful insert with shuffle draws `rng`. */
  function Inserted(c: seq<Image>, half: seq<Image>, maxSize: nat, rng: nat -> nat): (r: seq<Image>)
    requires |c| < maxSize || |half| <= |c|
    ensures |r| == |Staged(c, half, maxSize)|
    ensures multiset(r) == multiset(Staged(c, half, maxSize))
  {
    Shuffled(Staged(c, half, maxSize), rng)
  }

  /** Below capacity an insert grows the buffer by the half-batch and loses nothing. */
  lemma InsertBelowCapacity(c: seq<Image>, half: seq<Image>, maxSize: nat, rng: nat -> nat)
    requires |c| < maxSize
    ensures |Inserted(c, half, maxSize, rng)| == |c| + |half|
    ensures multiset(Inserted(c, half, maxSize, rng)) == multiset(c) + multiset(half)
  {
  }

  /** At capacity an insert keeps the size, keeps every new image, and loses exactly
      the images that were in the first `|half|` slots. */
  lemma InsertAtCapacity(c: seq<Image>, half: seq<Image>, maxSize: nat, rng: nat -> nat)
    requires |c| == maxSize && |half| <= |c|
    ensures |Inserted(c, half, maxSize, rng)| == maxSize
    ensures multiset(Inserted(c, half, maxSize, rng)) + multiset(c[..|half|])
         == multiset(c) + multiset(half)
    ensures forall x :: x in half ==> x in Inserted(c, half, maxSize, rng)
  {
    var staged := half + c[|half|..];
    ShuffledKeepsImages(staged, rng);
    assert c == c[..|half|] + c[|half|..];
    assert multiset(c) == multiset(c[..|half|]) + multiset(c[|half|..]);
    forall x | x in half ensures x in Inserted(c, half, maxSize, rng) {
      assert x in staged;
    }
  }

  /** Inserting a half-batch into an empty buffer and reading a half-batch back
      gives the same images, in some order. */
  lemma InsertIntoEmptyThenRead(half: seq<Image>, maxSize: nat, rng: nat -> nat)
    requires 0 < maxSize
    ensures |Inserted([], half, maxSize, rng)| == |half|
    ensures multiset(Inserted([], half, maxSize, rng)[..|half|]) == multiset(half)
  {
    assert Staged([], half, maxSize) == half;
    var r := Shuffled(half, rng);
    assert r[..|half|] == r;
  }

  /** At capacity, the slots a later read sees may hold exactly the images that
      were just inserted (here: the draws that keep the order). */
  lemma FullInsertCanSurfaceNewImages(c: seq<Image>, half: seq<Image>, rng: nat -> nat)
    requires |half| <= |c| && KeepsOrder(rng)
    ensures Inserted(c, half, |c|, rng)[..|half|] == half
  {
    ShuffleMayKeepOrder(half + c[|half|..], rng);
  }

  lemma MulMonotone(a: nat, b: nat, h: nat)
    requires a <= b
    ensures a * h <= b * h
  {
    assert b * h == a * h + (b - a) * h;
  }

  /** Growth by one half-batch, counted in half-batches of `h` images, saturates
      at the capacity of `k` half-batches. */
  lemma GrowthStep(n: nat, k: nat, h: nat, size: nat)
    requires 0 < h && 0 < k && size == Min(n, k) * h
    ensures n < k ==> size + h <= k * h && size + h == Min(n + 1, k) * h
    ensures n >= k ==> size == k * h && h <= size && size == Min(n + 1, k) * h
  {
    if n < k {
      MulMonotone(n + 1, k, h);
      assert (n + 1) * h == n * h + h;
    } else {
      MulMonotone(1, k, h);
    }
  }

  /** Contents after inserting each half-batch of `halves` in turn into an empty
      buffer whose capacity is `k` half-batches of `h` images; insert number `i`
      shuffles with the draws `rngs[i]`. */
  function {:induction false} InsertAll(halves: seq<seq<Image>>, h: nat, k: nat,
                                        rngs: seq<nat -> nat>): (r: seq<Image>)
    requires 0 < h && 0 < k && |rngs| == |halves|
    requires forall i :: 0 <= i < |halves| ==> |halves[i]| == h
    ensures |r| == Min(|halves|, k) * h
    decreases |halves|
  {
    if halves == [] then []
    else
      var n := |halves| - 1;
      var before := InsertAll(halves[..n], h, k, rngs[..n]);
      GrowthStep(n, k, h, |before|);
      Inserted(before, halves[n], k * h, rngs[n])
  }

  /** A numpy slice `buf[:n]`: a window onto the first `len` slots of `base`. */
  datatype View = View(base: array<Image>, len: nat)

  /** What the view shows now: a view has no contents of its own. */
  function ViewContents(v: View): (r: seq<Image>)
    reads v.base
    requires v.len <= v.base.Length
    ensures |r| == v.len
  {
    v.base[..v.len]
  }

  /** `n` images make a whole number of half-batches of `h` images. */
  ghost predicate Multiple(n: nat, h: nat)
    decreases n
  {
    n == 0 || (0 < h <= n && Multiple(n - h, h))
  }

  lemma {:induction false} MultipleOfCount(k: nat, h: nat)
    ensures Multiple(k * h, h)
  {
    if k > 0 && h > 0 {
      assert k * h - h == (k - 1) * h;
      MultipleOfCount(k - 1, h);
    }
  }

  /** Two whole numbers of half-batches differ by at least a half-batch. */
  lemma {:induction false} MultipleGap(a: nat, b: nat, h: nat)
    requires Multiple(a, h) && Multiple(b, h) && a < b
    ensures a + h <= b
    decreases a
  {
    if a > 0 {
      MultipleGap(a - h, b - h, h);
    }
  }

  /** The script's buffer, for `batch_size = 32`, holds exactly 2000 half-batches of 16. */
  lemma ScriptCapacity()
    ensures BatchSize / 2 == 16 && HistoryBufferMaxSize == 2000 * (BatchSize / 2)
    ensures Multiple(HistoryBufferMaxSize, BatchSize / 2)
  {
    MultipleOfCount(2000, BatchSize / 2);
  }

  class HistoryBuffer {
    const batchSize: nat
    /** `history_buffer_max_size`. */
    const maxSize: nat
    /** The numpy array; its length is the number of images held. */
    var data: array<Image>

    /** The size is a whole number of half-batches and never exceeds the capacity,
        which is itself a whole number of half-batches. */
    ghost predicate Valid()
      reads this
    {
      && maxSize == batchSize * 1000
      && data.Length <= maxSize
      && Multiple(data.Length, batchSize / 2)
      && (batchSize % 2 == 0 ==> Multiple(maxSize, batchSize / 2))
      && (batchSize % 2 == 1 ==> data.Length == 0)
    }

    function Contents(): seq<Image>
      reads this, data
    {
      data[..]
    }

    /** An empty buffer for the given batch size. */
    constructor (batchSize: nat)
      ensures Valid() && fresh(data)
      ensures this.batchSize == batchSize && maxSize == batchSize * 1000
      ensures Contents() == []
    {
      this.batchSize := batchSize;
      maxSize := batchSize * 1000;
      data := new Image[0];
      new;
      if batchSize % 2 == 0 {
        MultipleOfCount(2000, batchSize / 2);
      }
    }

    /** `add_half_batch_to_image_history`. */
    method Insert(half: seq<Image>, rng: nat -> nat) returns (r: Outcome)
      requires Valid()
      modifies this, data
      ensures Valid()
      ensures r.Pass? <==> 2 * |half| == batchSize
      ensures r.Fail? ==> r.error == AssertionError
      ensures r.Fail? ==> data == old(data) && Contents() == old(Contents())
      ensures r.Pass? ==> |half| <= |old(Contents())| || |old(Contents())| < maxSize
      ensures r.Pass? ==> Contents() == Inserted(old(Contents()), half, maxSize, rng)
      // below capacity the buffer is rebound to a new array; the old one is untouched
      ensures r.Pass? && old(data.Length) < maxSize ==> fresh(data) && old(data)[..] == old(data[..])
      // at capacity the same array is written over and shuffled
      ensures r.Pass? && old(data.Length) == maxSize ==> data == old(data)
    {
      if 2 * |half| != batchSize {
        return Fail(AssertionError);
      }
      if data.Length < maxSize {
        Append(half);
      } else if data.Length == maxSize {
        OverwriteFront(half);
      } else {
        assert false;
      }
      ShuffleInPlace(data, rng);
      r := Pass;
    }

    /** Lines 47-48: `np.concatenate` rebinds the buffer to a new, longer array. */
    method Append(half: seq<Image>)
      requires Valid() && 2 * |half| == batchSize && data.Length < maxSize
      modifies this
      ensures Valid() && fresh(data)
      ensures Contents() == Staged(old(Contents()), half, maxSize)
    {
      MultipleGap(data.Length, maxSize, batchSize / 2);
      data := Concatenate(data, half);
    }

    /** Line 50: the first half-batch of slots is written over in place. */
    method OverwriteFront(half: seq<Image>)
      requires Valid() && 2 * |half| == batchSize && data.Length == maxSize
      modifies data
      ensures |half| <= |old(Contents())|
      ensures Contents() == Staged(old(Contents()), half, maxSize)
    {
      OverwritePrefix(data, half);
    }

    /** `get_half_batch_from_image_history`: never raises; returns a view of the
        first min(half-batch, size) slots, so an empty view on an empty buffer. */
    method Read() returns (v: View)
      requires Valid()
      ensures v.base == data && v.len == Min(batchSize / 2, data.Length)
      ensures ViewContents(v) == Contents()[..Min(batchSize / 2, |Contents()|)]
    {
      v := View(data, Min(batchSize / 2, data.Length));
    }
  }

  /** `np.concatenate((a, rows))`: a new array holding `a`'s images followed by `rows`. */
  method Concatenate(a: array<Image>, rows: seq<Image>) returns (grown: array<Image>)
    ensures fresh(grown) && grown[..] == a[..] + rows
  {
    var n := a.Length + |rows|;
    grown := new Image[n](i requires 0 <= i < n reads a =>
      if i < a.Length then a[i] else rows[i - a.Length]);
  }

  /** `a[:len(rows)] = rows`: the first slots of `a` written over in place. */
  method OverwritePrefix(a: array<Image>, rows: seq<Image>)
    requires |rows| <= a.Length
    modifies a
    ensures a[..] == rows + old(a[..])[|rows|..]
  {
    var k := 0;
    while k < |rows|
      invariant 0 <= k <= |rows|
      invariant forall i :: 0 <= i < k ==> a[i] == rows[i]
      invariant forall i :: k <= i < a.Length ==> a[i] == old(a[i])
    {
      a[k] := rows[k];
      k := k + 1;
    }
    assert a[..] == rows + old(a[..])[|rows|..];
  }
}
