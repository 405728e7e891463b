/**
 The cycle of DMA descriptors that the step streamer fills.
 */
module DmaRing {

  const BUFFERS: nat := 5
  const BUFFER_LENGTH: nat := 2000
  const SAMPLE_SIZE: nat := 4

  /** A descriptor number that has run at most once past the last descriptor. */
  function Wrap(i: int): int {
    if i >= BUFFERS then i - BUFFERS else i
  }

  /** The next descriptor of the cycle. */
  function Successor(i: nat): (j: nat)
    ensures i < BUFFERS ==> j < BUFFERS
  {
    Wrap(i + 1)
  }
}
