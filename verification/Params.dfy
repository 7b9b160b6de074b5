/** Sizes that several parts of the system share. */
module Params {
  const MAXOPBLOCKS: nat := 10              // blocks that an operation may write
  const LOGBLOCKS: nat := 30                // blocks in the log
  const NBUF: nat := 30                     // buffers in the cache
}
