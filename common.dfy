/** Values shared by the SimGAN bookkeeping model: opaque images, the Python
    exceptions the core can raise, and small failure-carrying wrappers. */
module Common {

  /** An image of the configured shape. Its pixels are never inspected by the
      bookkeeping code; only identity and multiplicity matter. */
  datatype Image = Image(pixels: seq<int>)

  /** The Python exceptions the modelled code can raise. */
  datatype PyError =
    | AssertionError  // a failed `assert`
    | IndexError      // the only exception the history splice catches
    | ValueError      // numpy: "could not broadcast input array from shape ..."

  /** An operation that either completes or raises. */
  datatype Outcome = Pass | Fail(error: PyError)

  /** A value-returning operation that either returns or raises. */
  datatype Result<T> = Ok(value: T) | Err(error: PyError)

  function Min(a: nat, b: nat): nat {
    if a <= b then a else b
  }
}
