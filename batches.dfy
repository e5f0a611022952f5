/** `get_image_batch`: take a batch from a Keras directory iterator and, when it is
    not a full batch (the end-of-epoch remainder), take exactly one more and return
    that one without looking at it. */
module Batches {
  import opened Common

  /** A directory iterator: an endless stream of batches (`batches(i)` is the i-th
      batch handed out) and the number handed out so far. */
  class ImageSource {
    const batches: nat -> seq<Image>
    var pos: nat

    constructor (batches: nat -> seq<Image>)
      ensures this.batches == batches && pos == 0
    {
      this.batches := batches;
      pos := 0;
    }

    /** `generator.next()`. */
    method Next() returns (b: seq<Image>)
      modifies this
      ensures b == batches(old(pos)) && pos == old(pos) + 1
    {
      b := batches(pos);
      pos := pos + 1;
    }
  }

  /** The batch `get_image_batch` returns from position `pos`, and the position
      after: the stream advances once or twice, and the batch returned is the last
      one taken. */
  function Fetch(batches: nat -> seq<Image>, pos: nat, batchSize: nat): (r: (seq<Image>, nat))
    ensures pos + 1 <= r.1 <= pos + 2
    ensures r.0 == batches(r.1 - 1)
  {
    if |batches(pos)| != batchSize then (batches(pos + 1), pos + 2) else (batches(pos), pos + 1)
  }

  /** A full first batch is returned after a single call. */
  lemma FetchFullFirst(batches: nat -> seq<Image>, pos: nat, batchSize: nat)
    requires |batches(pos)| == batchSize
    ensures Fetch(batches, pos, batchSize) == (batches(pos), pos + 1)
  {
  }

  /** The result is a full batch exactly when one of the two batches that may be
      taken is full: the retry is not checked, so two short batches in a row give
      a short result. */
  lemma FetchFullIff(batches: nat -> seq<Image>, pos: nat, batchSize: nat)
    ensures |Fetch(batches, pos, batchSize).0| == batchSize
        <==> |batches(pos)| == batchSize || |batches(pos + 1)| == batchSize
  {
  }

  /** `get_image_batch(generator)`, proved against `Fetch`. */
  method GetImageBatch(gen: ImageSource, batchSize: nat) returns (b: seq<Image>)
    modifies gen
    ensures (b, gen.pos) == Fetch(gen.batches, old(gen.pos), batchSize)
  {
    b := gen.Next();
    if |b| != batchSize {
      b := gen.Next();
    }
  }
}
