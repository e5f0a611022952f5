/** The module-level constants of the training script. */
module Params {

  /** The flattened length the discriminator output is reshaped to (hard-coded). */
  const DiscSoftmaxOutputDim: nat := 252

  const ImgWidth: nat := 55
  const ImgHeight: nat := 35
  const ImgChannels: nat := 1

  const NbSteps: nat := 10000
  const BatchSize: nat := 32
  /** Discriminator updates per adversarial step. */
  const KD: nat := 1
  /** Half the number of refiner updates per adversarial step. */
  const KG: nat := 2

  /** Capacity of the refined-image history buffer. */
  const HistoryBufferMaxSize: nat := BatchSize * 1000

  /** Iteration counts of the two pretraining loops. */
  const RefinerPretrainSteps: nat := 1000
  const DiscPretrainSteps: nat := 100
}
