/** The call schedule of `adversarial_training`: refiner pretraining, discriminator
    pretraining, then adversarial steps, each made of `2 * k_g` combined (refiner)
    updates followed by `k_d` discriminator iterations. Calls into the networks,
    the generators and the history buffer are recorded as events in a trace. */
module Training {
  import opened Params

  datatype Op =
    | FetchSynthetic    // get_image_batch(synthetic_generator)
    | FetchReal         // get_image_batch(real_generator)
    | Predict           // refiner_model.predict
    | RefinerTrain      // refiner_model.train_on_batch (self-regularization only)
    | DiscTrainReal     // discriminator_model.train_on_batch(real, y_real)
    | DiscTrainRefined  // discriminator_model.train_on_batch(refined, y_refined)
    | CombinedTrain     // combined_model.train_on_batch
    | HistoryRead       // get_half_batch_from_image_history
    | HistoryInsert     // add_half_batch_to_image_history
    | HistorySplice     // refined_image_batch[:h] = history[:h]

  /** `block` repeated `n` times. */
  function Repeat(n: nat, block: seq<Op>): seq<Op>
  {
    if n == 0 then [] else Repeat(n - 1, block) + block
  }

  const RefinerPretrainBlock: seq<Op> := [FetchSynthetic, RefinerTrain]
  const DiscPretrainBlock: seq<Op> :=
    [FetchReal, DiscTrainReal, FetchSynthetic, Predict, DiscTrainRefined]
  const CombinedBlock: seq<Op> := [FetchSynthetic, CombinedTrain]
  const DiscBlock: seq<Op> :=
    [FetchSynthetic, FetchReal, Predict, HistoryRead, HistoryInsert, HistorySplice,
     DiscTrainReal, DiscTrainRefined]

  function AdversarialStep(kG: nat, kD: nat): seq<Op>
  {
    Repeat(2 * kG, CombinedBlock) + Repeat(kD, DiscBlock)
  }

  /** The whole trace of a training run. */
  function Schedule(refinerPretrain: nat, discPretrain: nat, nbSteps: nat, kG: nat, kD: nat): seq<Op>
  {
    Repeat(refinerPretrain, RefinerPretrainBlock)
    + Repeat(discPretrain, DiscPretrainBlock)
    + Repeat(nbSteps, AdversarialStep(kG, kD))
  }

  /** The refiner pretraining loop (lines 194-197), every call recorded. */
  method PretrainRefiner(steps: nat) returns (calls: seq<Op>)
    ensures calls == Repeat(steps, RefinerPretrainBlock)
  {
    calls := [];
    var i := 0;
    while i < steps
      invariant i <= steps
      invariant calls == Repeat(i, RefinerPretrainBlock)
    {
      ghost var before := calls;
      calls := calls + [FetchSynthetic];
      calls := calls + [RefinerTrain];
      assert calls == before + RefinerPretrainBlock;
      i := i + 1;
    }
  }

  /** The discriminator pretraining loop (lines 201-208), every call recorded. */
  method PretrainDiscriminator(steps: nat) returns (calls: seq<Op>)
    ensures calls == Repeat(steps, DiscPretrainBlock)
  {
    calls := [];
    var i := 0;
    while i < steps
      invariant i <= steps
      invariant calls == Repeat(i, DiscPretrainBlock)
    {
      ghost var before := calls;
      calls := calls + [FetchReal];
      calls := calls + [DiscTrainReal];
      calls := calls + [FetchSynthetic];
      calls := calls + [Predict];
      calls := calls + [DiscTrainRefined];
      assert calls == before + DiscPretrainBlock;
      i := i + 1;
    }
  }

  /** One adversarial step (lines 212-242): the refiner loop, then the
      discriminator loop, every call recorded. */
  method AdversarialStepCalls(kG: nat, kD: nat) returns (calls: seq<Op>)
    ensures calls == AdversarialStep(kG, kD)
  {
    calls := [];
    var j := 0;
    while j < kG * 2
      invariant j <= kG * 2
      invariant calls == Repeat(j, CombinedBlock)
    {
      ghost var before := calls;
      calls := calls + [FetchSynthetic];
      calls := calls + [CombinedTrain];
      assert calls == before + CombinedBlock;
      j := j + 1;
    }
    ghost var combined := calls;
    j := 0;
    while j < kD
      invariant j <= kD
      invariant calls == combined + Repeat(j, DiscBlock)
    {
      ghost var before := calls;
      calls := calls + [FetchSynthetic];
      calls := calls + [FetchReal];
      calls := calls + [Predict];
      calls := calls + [HistoryRead];
      calls := calls + [HistoryInsert];
      calls := calls + [HistorySplice];
      calls := calls + [DiscTrainReal];
      calls := calls + [DiscTrainRefined];
      assert calls == before + DiscBlock;
      j := j + 1;
    }
  }

  /** `adversarial_training` (lines 194-242) with every call recorded; proved to
      produce `Schedule`. */
  method AdversarialTraining(refinerPretrain: nat, discPretrain: nat, nbSteps: nat, kG: nat, kD: nat)
    returns (trace: seq<Op>)
    ensures trace == Schedule(refinerPretrain, discPretrain, nbSteps, kG, kD)
  {
    trace := PretrainRefiner(refinerPretrain);
    var discCalls := PretrainDiscriminator(discPretrain);
    trace := trace + discCalls;
    ghost var pretrained := trace;
    var i := 0;
    while i < nbSteps
      invariant i <= nbSteps
      invariant trace == pretrained + Repeat(i, AdversarialStep(kG, kD))
    {
      var stepCalls := AdversarialStepCalls(kG, kD);
      trace := trace + stepCalls;
      i := i + 1;
    }
  }

  lemma {:induction false} RepeatFront(n: nat, block: seq<Op>)
    requires 0 < n
    ensures Repeat(n, block) == block + Repeat(n - 1, block)
  {
    if n > 1 {
      RepeatFront(n - 1, block);
      assert Repeat(n, block) == block + Repeat(n - 2, block) + block;
    }
  }

  lemma {:induction false} NotInRepeat(n: nat, block: seq<Op>, op: Op)
    requires op !in block
    ensures op !in Repeat(n, block)
  {
    if n > 0 {
      NotInRepeat(n - 1, block, op);
    }
  }

  /** The first discriminator iteration of the adversarial phase runs its history
      read before any history insert has happened in the run, so it reads the
      buffer in its initial, empty state. */
  lemma FirstHistoryReadPrecedesEveryInsert(refinerPretrain: nat, discPretrain: nat, nbSteps: nat, kG: nat, kD: nat)
    requires 0 < nbSteps && 0 < kD
    ensures var before := Repeat(refinerPretrain, RefinerPretrainBlock) + Repeat(discPretrain, DiscPretrainBlock)
                          + Repeat(2 * kG, CombinedBlock);
      && HistoryInsert !in before
      && Schedule(refinerPretrain, discPretrain, nbSteps, kG, kD)[..|before| + |DiscBlock|] == before + DiscBlock
  {
    var a := Repeat(refinerPretrain, RefinerPretrainBlock);
    var b := Repeat(discPretrain, DiscPretrainBlock);
    var c := Repeat(2 * kG, CombinedBlock);
    NotInRepeat(refinerPretrain, RefinerPretrainBlock, HistoryInsert);
    NotInRepeat(discPretrain, DiscPretrainBlock, HistoryInsert);
    NotInRepeat(2 * kG, CombinedBlock, HistoryInsert);
    var step := AdversarialStep(kG, kD);
    assert step == c + DiscBlock + Repeat(kD - 1, DiscBlock) by {
      RepeatFront(kD, DiscBlock);
    }
    assert Repeat(nbSteps, step) == step + Repeat(nbSteps - 1, step) by {
      RepeatFront(nbSteps, step);
    }
    var front := a + b + c + DiscBlock;
    var rest := Repeat(kD - 1, DiscBlock) + Repeat(nbSteps - 1, step);
    assert Schedule(refinerPretrain, discPretrain, nbSteps, kG, kD) == front + rest;
    assert (front + rest)[..|front|] == front;
  }

  /** How often `op` occurs in `t`. */
  function Count(t: seq<Op>, op: Op): nat
  {
    multiset(t)[op]
  }

  lemma CountConcat(a: seq<Op>, b: seq<Op>, op: Op)
    ensures Count(a + b, op) == Count(a, op) + Count(b, op)
  {
    assert multiset(a + b) == multiset(a) + multiset(b);
  }

  lemma {:induction false} CountRepeat(n: nat, block: seq<Op>, op: Op)
    ensures Count(Repeat(n, block), op) == n * Count(block, op)
  {
    if n > 0 {
      var c := Count(block, op);
      assert Count(Repeat(n, block), op) == (n - 1) * c + c by {
        CountRepeat(n - 1, block, op);
        CountConcat(Repeat(n - 1, block), block, op);
      }
      assert (n - 1) * c + c == n * c;
    }
  }

  /** `block` repeated `n` times holds `n * c` calls of a kind it holds `c` of.
      `CountRepeat` with the block's count named, so that callers multiply by a
      variable rather than by a count over a constant block, which the solver
      handles far more cheaply. */
  lemma CountRepeatIs(n: nat, block: seq<Op>, op: Op, c: int)
    requires Count(block, op) == c
    ensures Count(Repeat(n, block), op) == n * c
  {
    CountRepeat(n, block, op);
  }

  /** The count of `op` in three phases that repeat `u`, `v` and `s`. */
  lemma PhasesCount(p: nat, d: nat, n: nat, u: seq<Op>, v: seq<Op>, s: seq<Op>, op: Op, x: int, y: int, c: int)
    requires Count(u, op) == x && Count(v, op) == y && Count(s, op) == c
    ensures Count(Repeat(p, u) + Repeat(d, v) + Repeat(n, s), op) == p * x + d * y + n * c
  {
    CountConcat(Repeat(p, u) + Repeat(d, v), Repeat(n, s), op);
    CountConcat(Repeat(p, u), Repeat(d, v), op);
    CountRepeatIs(p, u, op, x);
    CountRepeatIs(d, v, op, y);
    CountRepeatIs(n, s, op, c);
  }

  /** An adversarial step's count of `op`, from its count in the two loop bodies. */
  lemma StepCount(kG: nat, kD: nat, op: Op, z: nat, w: nat)
    requires Count(CombinedBlock, op) == z && Count(DiscBlock, op) == w
    ensures Count(AdversarialStep(kG, kD), op) == 2 * kG * z + kD * w
  {
    CountConcat(Repeat(2 * kG, CombinedBlock), Repeat(kD, DiscBlock), op);
    CountRepeatIs(2 * kG, CombinedBlock, op, z);
    CountRepeatIs(kD, DiscBlock, op, w);
  }

  /** The number of calls of one kind, from the number `x`, `y`, `z`, `w` of such
      calls in the four loop bodies. */
  lemma ScheduleCount(refinerPretrain: nat, discPretrain: nat, nbSteps: nat, kG: nat, kD: nat, op: Op,
                      x: nat, y: nat, z: nat, w: nat)
    requires Count(RefinerPretrainBlock, op) == x && Count(DiscPretrainBlock, op) == y
    requires Count(CombinedBlock, op) == z && Count(DiscBlock, op) == w
    ensures Count(Schedule(refinerPretrain, discPretrain, nbSteps, kG, kD), op)
         == refinerPretrain * x + discPretrain * y + nbSteps * (2 * kG * z + kD * w)
  {
    StepCount(kG, kD, op, z, w);
    PhasesCount(refinerPretrain, discPretrain, nbSteps, RefinerPretrainBlock, DiscPretrainBlock,
                AdversarialStep(kG, kD), op, x, y, 2 * kG * z + kD * w);
  }

  /** The count formula for the block counts that occur. Each block holds a given
      call 0 or 1 times, and the five patterns of `(x, y, z, w)` below are the ones
      the four blocks produce; keeping this arithmetic apart from the traces keeps
      each proof small enough for the solver. */
  lemma CollectCounts(p: nat, d: nat, n: nat, kG: nat, kD: nat, x: nat, y: nat, z: nat, w: nat, total: int)
    requires total == p * x + d * y + n * (2 * kG * z + kD * w)
    ensures x == 1 && y == 0 && z == 0 && w == 0 ==> total == p
    ensures x == 0 && y == 0 && z == 1 && w == 0 ==> total == n * (2 * kG)
    ensures x == 0 && y == 1 && z == 0 && w == 1 ==> total == d + n * kD
    ensures x == 0 && y == 0 && z == 0 && w == 1 ==> total == n * kD
    ensures x == 1 && y == 1 && z == 1 && w == 1 ==> total == p + d + n * (2 * kG + kD)
  {
  }

  /** The calls of one refiner pretraining iteration. */
  lemma RefinerPretrainBlockCounts()
    ensures Count(RefinerPretrainBlock, RefinerTrain) == 1 && Count(RefinerPretrainBlock, FetchSynthetic) == 1
    ensures forall op :: op !in {RefinerTrain, FetchSynthetic} ==> Count(RefinerPretrainBlock, op) == 0
  {
  }

  /** The calls of one discriminator pretraining iteration. */
  lemma DiscPretrainBlockCounts()
    ensures forall op :: op in {FetchReal, DiscTrainReal, FetchSynthetic, Predict, DiscTrainRefined} ==>
              Count(DiscPretrainBlock, op) == 1
    ensures forall op :: op !in {FetchReal, DiscTrainReal, FetchSynthetic, Predict, DiscTrainRefined} ==>
              Count(DiscPretrainBlock, op) == 0
  {
  }

  /** The calls of one combined (refiner) update. */
  lemma CombinedBlockCounts()
    ensures Count(CombinedBlock, CombinedTrain) == 1 && Count(CombinedBlock, FetchSynthetic) == 1
    ensures forall op :: op !in {CombinedTrain, FetchSynthetic} ==> Count(CombinedBlock, op) == 0
  {
  }

  /** The first half of `DiscBlockCounts`; the two halves are proved separately
      because counting in the eight-call block all at once is costly. */
  lemma DiscBlockFetchCounts()
    ensures Count(DiscBlock, FetchSynthetic) == 1 && Count(DiscBlock, FetchReal) == 1
    ensures Count(DiscBlock, Predict) == 1 && Count(DiscBlock, HistoryRead) == 1
    ensures Count(DiscBlock, RefinerTrain) == 0
  {
  }

  /** The second half of `DiscBlockCounts`. */
  lemma DiscBlockUpdateCounts()
    ensures Count(DiscBlock, HistoryInsert) == 1 && Count(DiscBlock, HistorySplice) == 1
    ensures Count(DiscBlock, DiscTrainReal) == 1 && Count(DiscBlock, DiscTrainRefined) == 1
    ensures Count(DiscBlock, CombinedTrain) == 0
  {
  }

  /** The calls of one discriminator iteration: one of each kind except the
      refiner and combined updates. */
  lemma DiscBlockCounts()
    ensures Count(DiscBlock, FetchSynthetic) == 1 && Count(DiscBlock, FetchReal) == 1
    ensures Count(DiscBlock, Predict) == 1
    ensures Count(DiscBlock, HistoryRead) == 1 && Count(DiscBlock, HistoryInsert) == 1
    ensures Count(DiscBlock, HistorySplice) == 1
    ensures Count(DiscBlock, DiscTrainReal) == 1 && Count(DiscBlock, DiscTrainRefined) == 1
    ensures Count(DiscBlock, RefinerTrain) == 0 && Count(DiscBlock, CombinedTrain) == 0
  {
    DiscBlockFetchCounts();
    DiscBlockUpdateCounts();
  }

  /** The count of `op` in a run, given the four block counts, for each of the
      patterns of `CollectCounts`. */
  lemma CountOf(p: nat, d: nat, n: nat, kG: nat, kD: nat, op: Op, x: nat, y: nat, z: nat, w: nat)
    requires Count(RefinerPretrainBlock, op) == x && Count(DiscPretrainBlock, op) == y
    requires Count(CombinedBlock, op) == z && Count(DiscBlock, op) == w
    ensures var total := Count(Schedule(p, d, n, kG, kD), op);
      && (x == 1 && y == 0 && z == 0 && w == 0 ==> total == p)
      && (x == 0 && y == 0 && z == 1 && w == 0 ==> total == n * (2 * kG))
      && (x == 0 && y == 1 && z == 0 && w == 1 ==> total == d + n * kD)
      && (x == 0 && y == 0 && z == 0 && w == 1 ==> total == n * kD)
      && (x == 1 && y == 1 && z == 1 && w == 1 ==> total == p + d + n * (2 * kG + kD))
  {
    ScheduleCount(p, d, n, kG, kD, op, x, y, z, w);
    CollectCounts(p, d, n, kG, kD, x, y, z, w, Count(Schedule(p, d, n, kG, kD), op));
  }

  /** How many calls of each kind a run makes. */
  lemma ScheduleCounts(refinerPretrain: nat, discPretrain: nat, nbSteps: nat, kG: nat, kD: nat)
    ensures var t := Schedule(refinerPretrain, discPretrain, nbSteps, kG, kD);
      && Count(t, RefinerTrain) == refinerPretrain
      && Count(t, CombinedTrain) == nbSteps * (2 * kG)
      && Count(t, DiscTrainReal) == discPretrain + nbSteps * kD
      && Count(t, DiscTrainRefined) == discPretrain + nbSteps * kD
      && Count(t, HistoryRead) == nbSteps * kD
      && Count(t, HistoryInsert) == nbSteps * kD
      && Count(t, HistorySplice) == nbSteps * kD
      && Count(t, Predict) == discPretrain + nbSteps * kD
      && Count(t, FetchReal) == discPretrain + nbSteps * kD
      && Count(t, FetchSynthetic) == refinerPretrain + discPretrain + nbSteps * (2 * kG + kD)
  {
    var p, d, n := refinerPretrain, discPretrain, nbSteps;
    RefinerPretrainBlockCounts();
    DiscPretrainBlockCounts();
    CombinedBlockCounts();
    DiscBlockCounts();
    CountOf(p, d, n, kG, kD, RefinerTrain, 1, 0, 0, 0);
    CountOf(p, d, n, kG, kD, CombinedTrain, 0, 0, 1, 0);
    CountOf(p, d, n, kG, kD, DiscTrainReal, 0, 1, 0, 1);
    CountOf(p, d, n, kG, kD, DiscTrainRefined, 0, 1, 0, 1);
    CountOf(p, d, n, kG, kD, HistoryRead, 0, 0, 0, 1);
    CountOf(p, d, n, kG, kD, HistoryInsert, 0, 0, 0, 1);
    CountOf(p, d, n, kG, kD, HistorySplice, 0, 0, 0, 1);
    CountOf(p, d, n, kG, kD, Predict, 0, 1, 0, 1);
    CountOf(p, d, n, kG, kD, FetchReal, 0, 1, 0, 1);
    CountOf(p, d, n, kG, kD, FetchSynthetic, 1, 1, 1, 1);
  }

  /** The constants of the script: 1000 refiner pretraining updates, 100 pairs of
      discriminator pretraining updates, and 4 combined updates and 2 discriminator
      updates in each of the 10000 adversarial steps. */
  lemma ScriptCounts()
    ensures var t := Schedule(RefinerPretrainSteps, DiscPretrainSteps, NbSteps, KG, KD);
      && Count(t, RefinerTrain) == 1000
      && Count(t, DiscTrainReal) == 100 + 10000
      && Count(t, DiscTrainRefined) == 100 + 10000
      && Count(t, CombinedTrain) == 40000
      && Count(t, HistoryInsert) == 10000
  {
    var t := Schedule(RefinerPretrainSteps, DiscPretrainSteps, NbSteps, KG, KD);
    assert Count(t, RefinerTrain) == 1000 by {
      ScheduleCounts(RefinerPretrainSteps, DiscPretrainSteps, NbSteps, KG, KD);
    }
    assert Count(t, DiscTrainReal) == 100 + 10000 by {
      ScheduleCounts(RefinerPretrainSteps, DiscPretrainSteps, NbSteps, KG, KD);
    }
    assert Count(t, DiscTrainRefined) == 100 + 10000 by {
      ScheduleCounts(RefinerPretrainSteps, DiscPretrainSteps, NbSteps, KG, KD);
    }
    assert Count(t, CombinedTrain) == 40000 by {
      ScheduleCounts(RefinerPretrainSteps, DiscPretrainSteps, NbSteps, KG, KD);
    }
    assert Count(t, HistoryInsert) == 10000 by {
      ScheduleCounts(RefinerPretrainSteps, DiscPretrainSteps, NbSteps, KG, KD);
    }
  }

  /** Each adversarial step makes `2 * k_g` combined updates, then `k_d` updates of
      each discriminator kind and `k_d` history inserts. */
  lemma StepCounts(kG: nat, kD: nat)
    ensures var step := AdversarialStep(kG, kD);
      && Count(step, CombinedTrain) == 2 * kG
      && Count(step, DiscTrainReal) == kD
      && Count(step, DiscTrainRefined) == kD
      && Count(step, HistoryInsert) == kD
      && Count(step, RefinerTrain) == 0
  {
    var combined := Repeat(2 * kG, CombinedBlock);
    var disc := Repeat(kD, DiscBlock);
    CombinedBlockCounts();
    DiscBlockCounts();
    assert Count(combined + disc, CombinedTrain) == 2 * kG by {
      CountConcat(combined, disc, CombinedTrain);
      CountRepeatIs(2 * kG, CombinedBlock, CombinedTrain, 1);
      CountRepeatIs(kD, DiscBlock, CombinedTrain, 0);
    }
    assert Count(combined + disc, DiscTrainReal) == kD by {
      CountConcat(combined, disc, DiscTrainReal);
      CountRepeatIs(2 * kG, CombinedBlock, DiscTrainReal, 0);
      CountRepeatIs(kD, DiscBlock, DiscTrainReal, 1);
    }
    assert Count(combined + disc, DiscTrainRefined) == kD by {
      CountConcat(combined, disc, DiscTrainRefined);
      CountRepeatIs(2 * kG, CombinedBlock, DiscTrainRefined, 0);
      CountRepeatIs(kD, DiscBlock, DiscTrainRefined, 1);
    }
    assert Count(combined + disc, HistoryInsert) == kD by {
      CountConcat(combined, disc, HistoryInsert);
      CountRepeatIs(2 * kG, CombinedBlock, HistoryInsert, 0);
      CountRepeatIs(kD, DiscBlock, HistoryInsert, 1);
    }
    assert Count(combined + disc, RefinerTrain) == 0 by {
      CountConcat(combined, disc, RefinerTrain);
      CountRepeatIs(2 * kG, CombinedBlock, RefinerTrain, 0);
      CountRepeatIs(kD, DiscBlock, RefinerTrain, 0);
    }
  }

  /** The calls that take an optimizer step. */
  predicate IsUpdate(op: Op) {
    op.RefinerTrain? || op.DiscTrainReal? || op.DiscTrainRefined? || op.CombinedTrain?
  }

  /** The optimizer steps of a trace, in order. */
  function Updates(t: seq<Op>): seq<Op>
  {
    if t == [] then []
    else (if IsUpdate(t[0]) then [t[0]] else []) + Updates(t[1..])
  }

  lemma {:induction false} UpdatesConcat(a: seq<Op>, b: seq<Op>)
    ensures Updates(a + b) == Updates(a) + Updates(b)
  {
    if a == [] {
      assert a + b == b;
    } else {
      var first := if IsUpdate(a[0]) then [a[0]] else [];
      assert (a + b)[0] == a[0] && (a + b)[1..] == a[1..] + b;
      calc {
        Updates(a + b);
        first + Updates(a[1..] + b);
        { UpdatesConcat(a[1..], b); }
        first + (Updates(a[1..]) + Updates(b));
        (first + Updates(a[1..])) + Updates(b);
      }
    }
  }

  lemma {:induction false} UpdatesRepeat(n: nat, block: seq<Op>)
    ensures Updates(Repeat(n, block)) == Repeat(n, Updates(block))
  {
    if n > 0 {
      UpdatesConcat(Repeat(n - 1, block), block);
      UpdatesRepeat(n - 1, block);
    }
  }

  /** The optimizer steps each pretraining loop body takes, in order. */
  lemma PretrainBlockUpdates()
    ensures Updates(RefinerPretrainBlock) == [RefinerTrain]
    ensures Updates(DiscPretrainBlock) == [DiscTrainReal, DiscTrainRefined]
  {
  }

  /** The optimizer steps each adversarial loop body takes, in order. */
  lemma AdversarialBlockUpdates()
    ensures Updates(CombinedBlock) == [CombinedTrain]
    ensures Updates(DiscBlock) == [DiscTrainReal, DiscTrainRefined]
  {
  }

  /** The optimizer steps come in this order: all refiner pretraining updates; then
      the discriminator pretraining updates, alternating real then refined; then per
      adversarial step `2 * k_g` combined updates followed by `k_d` real/refined pairs. */
  lemma ScheduleUpdateOrder(refinerPretrain: nat, discPretrain: nat, nbSteps: nat, kG: nat, kD: nat)
    ensures Updates(Schedule(refinerPretrain, discPretrain, nbSteps, kG, kD))
         == Repeat(refinerPretrain, [RefinerTrain])
          + Repeat(discPretrain, [DiscTrainReal, DiscTrainRefined])
          + Repeat(nbSteps, Repeat(2 * kG, [CombinedTrain]) + Repeat(kD, [DiscTrainReal, DiscTrainRefined]))
  {
    var a := Repeat(refinerPretrain, RefinerPretrainBlock);
    var b := Repeat(discPretrain, DiscPretrainBlock);
    var c := Repeat(nbSteps, AdversarialStep(kG, kD));
    UpdatesConcat(a + b, c);
    UpdatesConcat(a, b);
    UpdatesRepeat(refinerPretrain, RefinerPretrainBlock);
    UpdatesRepeat(discPretrain, DiscPretrainBlock);
    UpdatesRepeat(nbSteps, AdversarialStep(kG, kD));
    UpdatesConcat(Repeat(2 * kG, CombinedBlock), Repeat(kD, DiscBlock));
    UpdatesRepeat(2 * kG, CombinedBlock);
    UpdatesRepeat(kD, DiscBlock);
    PretrainBlockUpdates();
    AdversarialBlockUpdates();
  }

  /** Every history read is immediately followed by the insert and then the splice,
      and every insert and splice is preceded that way. */
  ghost predicate HistoryOpsInOrder(t: seq<Op>) {
    && (forall i :: 0 <= i < |t| && t[i] == HistoryRead ==>
          i + 2 < |t| && t[i + 1] == HistoryInsert && t[i + 2] == HistorySplice)
    && (forall i :: 0 <= i < |t| && t[i] == HistoryInsert ==>
          0 < i < |t| - 1 && t[i - 1] == HistoryRead && t[i + 1] == HistorySplice)
    && (forall i :: 0 <= i < |t| && t[i] == HistorySplice ==>
          1 < i && t[i - 2] == HistoryRead && t[i - 1] == HistoryInsert)
  }

  lemma NoHistoryOpsInOrder(t: seq<Op>)
    requires HistoryRead !in t && HistoryInsert !in t && HistorySplice !in t
    ensures HistoryOpsInOrder(t)
  {
  }

  lemma HistoryOrderConcat(a: seq<Op>, b: seq<Op>)
    requires HistoryOpsInOrder(a) && HistoryOpsInOrder(b)
    ensures HistoryOpsInOrder(a + b)
  {
    var t := a + b;
    forall i | 0 <= i < |t| && t[i] == HistoryRead
      ensures i + 2 < |t| && t[i + 1] == HistoryInsert && t[i + 2] == HistorySplice
    {
      if i < |a| { assert a[i] == HistoryRead; } else { assert b[i - |a|] == HistoryRead; }
    }
    forall i | 0 <= i < |t| && t[i] == HistoryInsert
      ensures 0 < i < |t| - 1 && t[i - 1] == HistoryRead && t[i + 1] == HistorySplice
    {
      if i < |a| { assert a[i] == HistoryInsert; } else { assert b[i - |a|] == HistoryInsert; }
    }
    forall i | 0 <= i < |t| && t[i] == HistorySplice
      ensures 1 < i && t[i - 2] == HistoryRead && t[i - 1] == HistoryInsert
    {
      if i < |a| { assert a[i] == HistorySplice; } else { assert b[i - |a|] == HistorySplice; }
    }
  }

  lemma {:induction false} HistoryOrderRepeat(n: nat, block: seq<Op>)
    requires HistoryOpsInOrder(block)
    ensures HistoryOpsInOrder(Repeat(n, block))
  {
    if n > 0 {
      HistoryOrderRepeat(n - 1, block);
      HistoryOrderConcat(Repeat(n - 1, block), block);
    }
  }

  lemma DiscBlockHistoryOrder()
    ensures HistoryOpsInOrder(DiscBlock)
  {
    var t := DiscBlock;
    forall i | 0 <= i < |t| && t[i] == HistoryRead
      ensures i + 2 < |t| && t[i + 1] == HistoryInsert && t[i + 2] == HistorySplice
    {
      assert i == 3;
    }
    forall i | 0 <= i < |t| && t[i] == HistoryInsert
      ensures 0 < i < |t| - 1 && t[i - 1] == HistoryRead && t[i + 1] == HistorySplice
    {
      assert i == 4;
    }
    forall i | 0 <= i < |t| && t[i] == HistorySplice
      ensures 1 < i && t[i - 2] == HistoryRead && t[i - 1] == HistoryInsert
    {
      assert i == 5;
    }
  }

  lemma AdversarialStepHistoryOrder(kG: nat, kD: nat)
    ensures HistoryOpsInOrder(AdversarialStep(kG, kD))
  {
    DiscBlockHistoryOrder();
    NoHistoryOpsInOrder(CombinedBlock);
    HistoryOrderRepeat(2 * kG, CombinedBlock);
    HistoryOrderRepeat(kD, DiscBlock);
    HistoryOrderConcat(Repeat(2 * kG, CombinedBlock), Repeat(kD, DiscBlock));
  }

  /** In every discriminator iteration of every run, the history read comes first,
      then the insert, then the splice, with nothing in between. */
  lemma ScheduleHistoryOrder(refinerPretrain: nat, discPretrain: nat, nbSteps: nat, kG: nat, kD: nat)
    ensures HistoryOpsInOrder(Schedule(refinerPretrain, discPretrain, nbSteps, kG, kD))
  {
    var a := Repeat(refinerPretrain, RefinerPretrainBlock);
    var b := Repeat(discPretrain, DiscPretrainBlock);
    var c := Repeat(nbSteps, AdversarialStep(kG, kD));
    NoHistoryOpsInOrder(RefinerPretrainBlock);
    NoHistoryOpsInOrder(DiscPretrainBlock);
    HistoryOrderRepeat(refinerPretrain, RefinerPretrainBlock);
    HistoryOrderRepeat(discPretrain, DiscPretrainBlock);
    AdversarialStepHistoryOrder(kG, kD);
    HistoryOrderRepeat(nbSteps, AdversarialStep(kG, kD));
    HistoryOrderConcat(a, b);
    HistoryOrderConcat(a + b, c);
  }
}
