/** One discriminator iteration's use of the history buffer: read a half-batch view,
    insert the first half of the freshly refined batch, then write the view's
    images over that first half (the "splice"). */
module Splice {
  import opened Common
  import opened History

  /** numpy's `dst[:k] = src` on the first axis: `src` must have as many rows as the
      slice (or a single row, which is broadcast); otherwise it raises ValueError. */
  function AssignPrefix(dst: seq<Image>, k: nat, src: seq<Image>): (r: Result<seq<Image>>)
    ensures r.Ok? <==> |src| == Min(k, |dst|) || |src| == 1
    ensures r.Err? ==> r.error == ValueError
    ensures r.Ok? ==> |r.value| == |dst| && r.value[Min(k, |dst|)..] == dst[Min(k, |dst|)..]
    ensures r.Ok? ==> forall i :: 0 <= i < Min(k, |dst|) ==>
              r.value[i] == (if |src| == Min(k, |dst|) then src[i] else src[0])
  {
    var m := Min(k, |dst|);
    if |src| == m then Ok(src + dst[m..])
    else if |src| == 1 then Ok(seq(m, _ => src[0]) + dst[m..])
    else Err(ValueError)
  }

  /** The splice as written: `batch[:h] = hist[:h]` inside a handler that catches
      only IndexError, which the assignment never raises. */
  function SpliceAsWritten(batch: seq<Image>, h: nat, hist: seq<Image>): (r: Result<seq<Image>>)
    ensures r.Ok? ==> |r.value| == |batch| && r.value[Min(h, |batch|)..] == batch[Min(h, |batch|)..]
    ensures r.Err? ==> r.error == ValueError
  {
    var written := AssignPrefix(batch, h, hist[..Min(h, |hist|)]);
    if written.Err? && written.error == IndexError then Ok(batch) else written
  }

  /** The splice as written raises exactly when the history half-batch neither fits
      the slice nor broadcasts; the IndexError handler never applies. */
  lemma SpliceAsWrittenRaises(batch: seq<Image>, h: nat, hist: seq<Image>)
    ensures SpliceAsWritten(batch, h, hist).Err?
        <==> Min(h, |hist|) != Min(h, |batch|) && Min(h, |hist|) != 1
    ensures SpliceAsWritten(batch, h, hist).Err? ==> SpliceAsWritten(batch, h, hist).error == ValueError
  {
  }

  /** The splice with the empty-history case handled: an empty history leaves the
      refined batch as it is; otherwise its first `h` images come from the history. */
  function SpliceHistory(batch: seq<Image>, h: nat, hist: seq<Image>): (r: seq<Image>)
    requires h <= |batch| && (|hist| == 0 || h <= |hist|)
    ensures |r| == |batch| && r[h..] == batch[h..]
    ensures |hist| == 0 ==> r == batch
    ensures 0 < |hist| ==> r[..h] == hist[..h]
  {
    if |hist| == 0 then batch else hist[..h] + batch[h..]
  }

  /** On the very first iteration the history is empty: the splice as written raises
      ValueError (uncaught), while the guarded splice keeps the refined batch. */
  lemma EmptyHistorySpliceRaises(batch: seq<Image>, h: nat)
    requires 0 < h <= |batch|
    ensures SpliceAsWritten(batch, h, []) == Err(ValueError)
    ensures SpliceHistory(batch, h, []) == batch
  {
  }

  /** Whenever the history holds at least a half-batch, the guarded splice does what
      the splice as written does. */
  lemma SpliceHistoryAgreesWithAsWritten(batch: seq<Image>, h: nat, hist: seq<Image>)
    requires 0 < h <= |batch| && h <= |hist|
    ensures SpliceAsWritten(batch, h, hist) == Ok(SpliceHistory(batch, h, hist))
  {
    assert Min(h, |hist|) == h && Min(h, |batch|) == h;
    assert hist[..h][..h] == hist[..h];
  }

  /** The guarded splice keeps the batch size and the second half, and puts the
      history's first half-batch in front. */
  lemma SpliceHistoryContents(batch: seq<Image>, h: nat, hist: seq<Image>)
    requires h <= |batch| && h <= |hist| && 0 < |hist|
    ensures |SpliceHistory(batch, h, hist)| == |batch|
    ensures SpliceHistory(batch, h, hist)[h..] == batch[h..]
    ensures multiset(SpliceHistory(batch, h, hist)) == multiset(hist[..h]) + multiset(batch[h..])
  {
  }

  /** `refined_image_batch[:h] = history[:h]`, guarded against an empty history. */
  method SpliceInPlace(batch: array<Image>, h: nat, hist: seq<Image>)
    requires h <= batch.Length && (|hist| == 0 || h <= |hist|)
    modifies batch
    ensures batch[..] == SpliceHistory(old(batch[..]), h, hist)
  {
    if |hist| > 0 {
      OverwritePrefix(batch, hist[..h]);
    }
  }

  /** Lines 231-238: read the history view, insert the first half of the refined
      batch, then splice the view's images into that first half. Because the view
      aliases the buffer's array, what is spliced in is what the view shows AFTER the
      insert: below capacity the insert rebinds the buffer to a new array, so the view
      still shows the old first half-batch; at capacity the insert writes over and
      shuffles the same array, so the view shows the new first half-batch. */
  method DiscriminatorIteration(buf: HistoryBuffer, refined: array<Image>, rng: nat -> nat)
    returns (r: Outcome)
    requires buf.Valid() && refined != buf.data
    modifies buf, buf.data, refined
    ensures buf.Valid()
    ensures r.Pass? <==> 2 * Min(buf.batchSize / 2, refined.Length) == buf.batchSize
    ensures r.Fail? ==> r.error == AssertionError && buf.data == old(buf.data)
    ensures r.Fail? ==> buf.Contents() == old(buf.Contents()) && refined[..] == old(refined[..])
    ensures r.Pass? ==> buf.batchSize / 2 <= refined.Length
    ensures r.Pass? ==>
      && (|old(buf.Contents())| < buf.maxSize || buf.batchSize / 2 <= |old(buf.Contents())|)
      && buf.Contents() == Inserted(old(buf.Contents()), old(refined[..buf.batchSize / 2]), buf.maxSize, rng)
    // empty history: the refined batch is left as it is
    ensures r.Pass? && old(buf.data.Length) == 0 ==> refined[..] == old(refined[..])
    // filling: the images spliced in are the buffer's first half-batch before the insert
    ensures r.Pass? && 0 < old(buf.data.Length) < buf.maxSize ==>
      buf.batchSize / 2 <= old(buf.data.Length) &&
      refined[..] == SpliceHistory(old(refined[..]), buf.batchSize / 2, old(buf.Contents())[..buf.batchSize / 2])
    // full: the images spliced in are the buffer's first half-batch after the insert
    ensures r.Pass? && old(buf.data.Length) == buf.maxSize ==>
      buf.batchSize / 2 <= buf.data.Length &&
      refined[..] == SpliceHistory(old(refined[..]), buf.batchSize / 2, buf.Contents()[..buf.batchSize / 2])
  {
    var h := buf.batchSize / 2;
    ghost var before := buf.Contents();
    var view := buf.Read();
    r := buf.Insert(refined[..Min(h, refined.Length)], rng);
    if r.Fail? {
      return;
    }
    var hist := ViewContents(view);
    assert 0 < |before| < buf.maxSize ==> hist == before[..h];
    assert |before| == buf.maxSize ==> hist == buf.Contents()[..h];
    SpliceInPlace(refined, h, hist);
  }
}
