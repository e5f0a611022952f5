# SimGAN training bookkeeping, modelled in Dafny

This project models the bookkeeping around the GAN in `sim-gan.py` of SimGAN. That
is the script that trains a pixel-level refiner of synthetic eye images against a
discriminator. The networks themselves are not modelled. The model covers:

- **The refined-image history buffer** (`history.dfy`, `shuffle.dfy`). It is a
  numpy array of images held in a module global.
  - An insert of exactly `batch_size / 2` images concatenates them onto the array
    while it is below `history_buffer_max_size`. That makes a new array.
  - At capacity the insert writes over the first half-batch of slots in place.
  - Either way the insert ends with `np.random.shuffle` in place.
  - A read is the slice `buf[:batch_size // 2]`, which is a view of the array.
  - The class `History.HistoryBuffer` holds the numpy array as a Dafny `array`:
    - the concatenation allocates a fresh array;
    - the overwrite and the shuffle write into the same array;
    - a read returns a `View` that shares the array, so it aliases the buffer
      exactly as the numpy slice does.
  - The shuffle is numpy's Fisher-Yates loop. Its random draws are a parameter:
    `rng(i) % (i + 1)` is the slot swapped with slot `i`.
- **One discriminator iteration's use of the history** (`splice.dfy`). It reads a
  view, inserts the first half of the refined batch, then writes the view's images
  over that first half.
- **`get_image_batch`** (`batches.dfy`). It takes a batch and, when that batch is
  short, takes exactly one more and returns it unchecked. The Keras directory
  iterator is an endless stream of batches.
- **The training schedule** (`schedule.dfy`). Every call the loops of
  `adversarial_training` make is recorded as an `Op` in a trace. The method with the
  nested loops is proved to produce the `Schedule` function. Its call counts and its
  order are proved about that function.
- **The shape arithmetic of the two networks** (`shapes.dfy`). With 'same' padding a
  layer of stride `s` maps a spatial size `n` to ceil(n / s). It is proved that
  35×55 images give a 9×14×2 discriminator output, so the hard-coded
  `DISC_SOFTMAX_OUTPUT_DIM = 252` is right for the configured image size.

The script's constants are in `params.dfy`. Images, the Python exceptions and the
`Result`/`Outcome` wrappers are in `common.dfy`.

## Model

| member | source | states |
|---|---|---|
| Shuffle.Swap | sim-gan.py:54 | One step of the shuffle exchanges slots `i` and `j` and leaves every other slot as it was. |
| Shuffle.SwapPermutes | sim-gan.py:54 | One swap keeps the multiset of images. |
| Shuffle.ShuffleFrom | sim-gan.py:54 | The remaining swaps of the Fisher-Yates loop keep the length and the multiset of images. Its contract needs the recursive call's contract. |
| Shuffle.Shuffled | sim-gan.py:54 | Whatever the draws, the shuffle is a permutation: same length and same multiset of images. |
| Shuffle.ShuffledKeepsImages | sim-gan.py:54 | An image is in the shuffled buffer exactly when it was in the buffer before. |
| Shuffle.ShuffleFromKeepsOrder | sim-gan.py:54 | Under draws that swap every slot with itself, the remaining swaps change nothing. |
| Shuffle.ShuffleMayKeepOrder | sim-gan.py:54 | The unchanged order is one possible outcome of the shuffle. |
| Shuffle.ShuffleInPlace | sim-gan.py:54 | The in-place loop leaves the array in exactly the order the shuffle function gives for the same draws. |
| History.Staged | sim-gan.py:47-50 | Before the shuffle: below capacity the half-batch is appended after the old images; at capacity it replaces the first slots and the rest is kept. |
| History.Inserted | sim-gan.py:47-54 | After the shuffle the buffer has the staged size and the staged images, as a multiset. |
| History.ScriptCapacity | sim-gan.py:32-40 | With `batch_size = 32` the capacity is 2000 half-batches of 16 images, a whole number of half-batches. |
| History.InsertBelowCapacity | sim-gan.py:47-48 | Below capacity an insert grows the buffer by exactly the half-batch, and the new contents are the old images plus the new ones, as a multiset. |
| History.InsertAtCapacity | sim-gan.py:49-50 | At capacity an insert keeps the size at the capacity and keeps every new image. The only images lost are those that were in the first half-batch of slots. |
| History.InsertIntoEmptyThenRead | sim-gan.py:43-61 | A half-batch inserted into an empty buffer is, as a multiset, exactly what a half-batch read returns afterwards. |
| History.FullInsertCanSurfaceNewImages | sim-gan.py:49-61 | At capacity, the slots a later read sees can hold exactly the images just inserted. |
| History.GrowthStep | sim-gan.py:40-52 | Counted in half-batches, growth by one half-batch saturates at the capacity. Below capacity the new size still fits; at capacity the size is exactly the capacity. |
| History.InsertAll | sim-gan.py:40-54 | After any number of inserts into an empty buffer, the size is min(inserts, capacity in half-batches) × half-batch, never above the capacity. |
| History.ViewContents | sim-gan.py:61 | A view shows as many images as its length, read from the shared array at the time of looking. |
| History.HistoryBuffer.constructor | sim-gan.py:39-40 | The buffer starts empty, with capacity `batch_size * 1000`. |
| History.HistoryBuffer.Insert | sim-gan.py:43-54 | Passes exactly when `2 * len == batch_size`; otherwise it raises AssertionError and changes nothing. The size stays a whole number of half-batches within the capacity, so the `assert False` branch is never reached. The new contents are the staged contents, shuffled. Below capacity the buffer is a fresh array and the old array is untouched; at capacity the array is the same one. |
| History.MultipleGap | sim-gan.py:47-52 | Two sizes that are whole numbers of half-batches differ by at least a half-batch, so a buffer below capacity has room for one more half-batch. |
| History.HistoryBuffer.Append | sim-gan.py:47-48 | Below capacity, the concatenation rebinds the buffer to a fresh array holding the old images followed by the half-batch, and the size stays within the capacity. |
| History.HistoryBuffer.OverwriteFront | sim-gan.py:49-50 | At capacity, the half-batch is written over the first slots of the same array and the rest is kept. |
| History.HistoryBuffer.Read | sim-gan.py:57-63 | Never raises. Returns a view of the buffer's own array holding the first min(half-batch, size) images, which is empty for an empty buffer. Changes nothing. |
| History.Concatenate | sim-gan.py:48 | `np.concatenate` yields a fresh array holding the old images followed by the new. |
| History.OverwritePrefix | sim-gan.py:50 | The slice assignment writes the rows over the first slots and leaves the rest. |
| Splice.AssignPrefix | sim-gan.py:235 | numpy's `dst[:k] = src` succeeds exactly when `src` has as many rows as the slice, or one row to broadcast; otherwise it raises ValueError. On success only the slice changes. |
| Splice.SpliceAsWritten | sim-gan.py:234-238 | The splice as written keeps the batch length and the images past the slice; when it fails, the error is ValueError, which the IndexError handler does not catch. |
| Splice.SpliceHistory | sim-gan.py:231-238 | The guarded splice keeps the batch length and second half; an empty history leaves the batch as it is, otherwise the first half-batch comes from the history. |
| Splice.SpliceAsWrittenRaises | sim-gan.py:234-238 | The splice as written raises exactly when the history half-batch neither fits the slice nor broadcasts, and then it raises ValueError, which the IndexError handler does not catch. |
| Splice.EmptyHistorySpliceRaises | sim-gan.py:231-238 | With an empty history, the splice as written raises ValueError, while the guarded splice leaves the refined batch unchanged. |
| Splice.SpliceHistoryAgreesWithAsWritten | sim-gan.py:234-238 | Once the history holds a half-batch, the guarded splice does exactly what the code as written does. |
| Splice.SpliceHistoryContents | sim-gan.py:235 | The splice keeps the batch size and its second half, and puts the history's first half-batch in front. |
| Splice.SpliceInPlace | sim-gan.py:235 | The in-place splice produces the guarded splice of the old batch. |
| Splice.DiscriminatorIteration | sim-gan.py:231-238 | Passes exactly when the refined batch supplies a full half-batch; otherwise it raises AssertionError and changes nothing. The buffer afterwards holds the shuffled insert. An empty history leaves the refined batch alone. While filling, the images spliced in are the buffer's first half-batch before the insert. At capacity they are its first half-batch after the insert and shuffle, because the view aliases the array. |
| Batches.ImageSource.Next | sim-gan.py:182 | `generator.next()` hands out the next batch of the stream and advances by one. |
| Batches.GetImageBatch | sim-gan.py:180-186 | The batch returned and the new stream position are those of `Fetch`. |
| Batches.ImageSource.constructor | sim-gan.py:165-177 | A directory iterator starts at the head of its stream of batches. |
| Batches.Fetch | sim-gan.py:180-186 | What `get_image_batch` returns: the generator advances once or twice, and the batch returned is the last one taken. |
| Batches.FetchFullFirst | sim-gan.py:182-186 | If the first batch is full, it is returned after a single call. |
| Batches.FetchFullIff | sim-gan.py:180-186 | The result is a full batch exactly when one of the two batches taken is full. Two short batches in a row give a short result, because the retry is unchecked. |
| Training.AdversarialStep | sim-gan.py:214-242 | The calls of one adversarial step: `2 * k_g` combined blocks followed by `k_d` discriminator blocks. Its counts and order are stated by `Training.StepCounts` and `Training.AdversarialStepHistoryOrder`. |
| Training.Schedule | sim-gan.py:194-242 | The calls of a whole run: refiner pretraining, discriminator pretraining, then the adversarial steps. Its counts and order are stated by the lemmas below. |
| Training.PretrainRefiner | sim-gan.py:194-197 | The refiner pretraining loop makes, per iteration, one synthetic fetch and one refiner update, in that order. |
| Training.PretrainDiscriminator | sim-gan.py:201-208 | The discriminator pretraining loop makes, per iteration, a real fetch, a real update, a synthetic fetch, a prediction and a refined update, in that order. |
| Training.AdversarialStepCalls | sim-gan.py:214-242 | One adversarial step makes `2 * k_g` combined blocks followed by `k_d` discriminator blocks, in that order. |
| Training.AdversarialTraining | sim-gan.py:194-242 | The nested loops make exactly the calls of `Schedule`, in its order. |
| Training.ScheduleCount | sim-gan.py:194-242 | The calls of one kind are: the pretraining counts times each pretraining body's count, plus the number of steps times (2·k_g times the combined body's count plus k_d times the discriminator body's count). |
| Training.RefinerPretrainBlockCounts | sim-gan.py:196-197 | A refiner pretraining iteration makes one synthetic fetch and one refiner update, and no other call. |
| Training.DiscPretrainBlockCounts | sim-gan.py:203-208 | A discriminator pretraining iteration makes one each of real fetch, real update, synthetic fetch, prediction and refined update, and no other call. |
| Training.CombinedBlockCounts | sim-gan.py:217-220 | A combined update iteration makes one synthetic fetch and one combined update, and no other call. |
| Training.DiscBlockCounts | sim-gan.py:224-242 | A discriminator iteration makes one of each call except the refiner and combined updates, which it never makes. |
| Training.ScheduleCounts | sim-gan.py:194-242 | A run makes the stated number of each call: for example 2·k_g·nb_steps combined updates, discPretrain + k_d·nb_steps updates of each discriminator kind, and k_d·nb_steps history reads, inserts and splices. |
| Training.ScriptCounts | sim-gan.py:194-242 | A run with the script's constants in which no call raises (the guarded splice, full refined batches) makes 1000 refiner updates, 100 + 10000 real and 100 + 10000 refined discriminator updates, 40000 combined updates and 10000 history inserts. |
| Training.StepCounts | sim-gan.py:215-242 | Each adversarial step makes 2·k_g combined updates, k_d real and k_d refined discriminator updates, k_d history inserts and no refiner-only update. |
| Training.PretrainBlockUpdates | sim-gan.py:194-208 | The optimizer steps of the pretraining bodies are one refiner update, and a real then a refined discriminator update. |
| Training.AdversarialBlockUpdates | sim-gan.py:214-242 | The optimizer steps of the adversarial bodies are one combined update, and a real then a refined discriminator update. |
| Training.ScheduleUpdateOrder | sim-gan.py:194-242 | The optimizer steps come in this order: all refiner pretraining updates; then discriminator pretraining alternating real, then refined; then per step 2·k_g combined updates followed by k_d real/refined pairs. |
| Training.ScheduleHistoryOrder | sim-gan.py:231-235 | In every run, each history read is immediately followed by the insert and then the splice, and every insert and splice sits in such a triple. |
| Training.FirstHistoryReadPrecedesEveryInsert | sim-gan.py:194-232 | No history insert happens before the first discriminator iteration's read, so that read sees the buffer still empty. |
| Shapes.CeilDiv | sim-gan.py:110-115 | A 'same'-padded layer of stride s maps n to the least r with n ≤ r·s, which is ceil(n / s). |
| Shapes.Reshape | sim-gan.py:117 | The reshape succeeds exactly when height × width × channels equals the target length; otherwise it raises ValueError. |
| Shapes.LayerOutput | sim-gan.py:110-115 | A layer fails exactly for a zero stride or a residual sum of tensors with different channel counts, with ValueError; a strided layer's output covers its input. |
| Shapes.NetworkOutput | sim-gan.py:84-115 | A stack of layers either gives a shape or the first layer's error, which is a ValueError. |
| Shapes.DiscriminatorOutput | sim-gan.py:103-118 | The discriminator's output has the hard-coded length 252 when it builds; otherwise building raises ValueError. |
| Shapes.HalfUp | sim-gan.py:110-112 | A stride-2 layer maps `n` to the `r` with n ≤ 2r < n + 2. |
| Shapes.DiscriminatorDownsamples | sim-gan.py:110-111 | The two stride-2 convolutions halve height and width twice, rounding up, and leave 64 maps. |
| Shapes.DiscriminatorKeepsCells | sim-gan.py:112-115 | The stride-1 pool and convolutions keep the spatial size and end with 2 maps. |
| Shapes.DiscriminatorShape | sim-gan.py:110-115 | For any input, the discriminator's cells are the height and width each halved twice, rounding up, with 2 maps. |
| Shapes.SoftmaxDimMatchesImageSize | sim-gan.py:110-117 | For 35×55 images the cells are 9×14×2, and 9·14·2 = 252, so the reshape to the hard-coded length succeeds. |
| Shapes.DiscriminatorBuildsIff | sim-gan.py:110-117 | The discriminator builds exactly when the quartered height and width times 2 equal 252; otherwise it raises ValueError. |
| Shapes.TallerImageBreaksReshape | sim-gan.py:110-117 | The constant is tied to the image size: a 37-row image gives 10·14·2 = 280 values, and the reshape fails. |
| Shapes.RefinerShape | sim-gan.py:84-100 | The refiner keeps the spatial size of any input and always ends with one feature map. |
| Shapes.RefinedShapeMatchesIff | sim-gan.py:84-100 | A refined image has its input's shape exactly when images have one channel, as `img_channels = 1` makes them. |

## Left out

- Keras and TensorFlow: `compile`, `train_on_batch`, `predict`, the losses, autodiff and the optimizer steps are foreign, floating-point calls. They appear only as events (`Training.Op`) in the trace. What `predict` computes is not modelled, except its shape through `Shapes.RefinerShape`.
- Pixel values: an image is an opaque value. Only identity and multiplicity matter.
- Image loading: `ImageDataGenerator`, `flow_from_directory` and the Xception preprocessing do directory I/O and decoding. The generator is modelled as an endless stream of batches of arbitrary length (`Batches.ImageSource`).
- Randomness: the shuffle's draws are a parameter `rng`. Every sequence of draws is covered, but not their distribution.
- Progress `print`s, `main` and the command-line arguments.
- The label arrays `y_real`/`y_refined` (sim-gan.py:189-190) are constant numeric arrays. Only their length, `DISC_SOFTMAX_OUTPUT_DIM`, is part of the model.
- Shapes.LayerOutput: kernel sizes do not enter the shape under 'same' padding, so they are carried but unused. A residual sum of two tensors with different channel counts is modelled as ValueError. The Keras version's own error type is not part of this model.
- Shapes.DiscriminatorOutput: the softmax at sim-gan.py:118 acts on the whole flat 252-vector, not per spatial cell. The model keeps only the length.
- Training.AdversarialTraining: the trace is that of a run in which no call raises, with the guarded splice. As written the program ends early on two exceptions the trace does not record: the uncaught ValueError of the splice at sim-gan.py:235 in the first adversarial discriminator iteration (see Findings), after 1000 refiner updates, 100 + 100 discriminator updates, 4 combined updates and 1 history insert; and the AssertionError of the insert at sim-gan.py:45 when a refined batch has fewer than `batch_size // 2` images, which can happen only when two short synthetic batches are fetched in a row (`Batches.FetchFullIff`). The splice is recorded as an event; its effect on the batch is modelled by `Splice.DiscriminatorIteration`.
- Splice.DiscriminatorIteration: it uses the guarded splice, not the code as written. The as-written behaviour is `Splice.SpliceAsWritten` (see Findings). It takes `refined` to be a different array from the buffer, as `predict` returns a new array.
- Batches.GetImageBatch: there is no error for an exhausted or empty image directory. The code does not check the retried batch, and the model follows the code.
- History.HistoryBuffer.Insert: which images survive at capacity depends on the earlier shuffles. The model states exactly which images are lost: those in the first half-batch of slots. It does not claim the newest half-batches are kept, because the code does not keep them in general.
- The `except IndexError` in `get_half_batch_from_image_history` (sim-gan.py:62-63) cannot trigger, because slicing a numpy array past its end does not raise. `History.HistoryBuffer.Read` therefore never fails.
- Refiner output channels: the final 1×1 convolution of the refiner hard-codes 1 feature map (sim-gan.py:100). It is not derived from the input's channel count; `Shapes.RefinedShapeMatchesIff` states when the two agree.

## Findings

| source | as written | input that shows it | evidently intended | confidence | as-written member | corrected member |
|---|---|---|---|---|---|---|
| sim-gan.py:231-238 | The splice `refined_image_batch[:16] = history[:16]` is guarded only by `except IndexError`. | The first adversarial discriminator iteration. Nothing has been inserted yet (`Training.FirstHistoryReadPrecedesEveryInsert`), so the read returns a 0-row view. Assigning 0 rows to a 16-row slice raises numpy's broadcast ValueError, which escapes the handler and ends training. | An empty history leaves the refined batch as it is. | not executed | Splice.SpliceAsWritten, Splice.EmptyHistorySpliceRaises | Splice.SpliceHistory, Splice.DiscriminatorIteration |
