/**
 Sizes the programs share.
 */
module Limits {

  /** Iterations every benchmark makes before it starts to measure. */
  const WARMUP: nat := 20

  /** Entries a work queue is created with. */
  const MAX_WR: nat := 128

  /** A work queue keeps one entry free to tell full from empty. */
  const USABLE_WR: nat := MAX_WR - 1
}
