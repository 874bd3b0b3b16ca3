/** Constants and integer types shared by every part of the model
    (go/shm/layout.go, rust/src/layout.rs). */
module Layout {
  const BLOCK_SIZE := 4096
  const BLOCKS_PER_CHUNK := 1024
  const CHUNK_SIZE := 4194304
  const WORDS_PER_CHUNK := 32

  const MAX_NODES := 64
  const MAX_CHUNKS := 64
  const QUEUE_SIZE := 510
  const MAX_TOTAL_SLOTS := 4096

  /** The number of values of a 32-bit counter. */
  const WRAP := 0x1_0000_0000

  type Byte = x: int | 0 <= x < 256
  type U32 = x: int | 0 <= x < 0x1_0000_0000

  datatype Option<+T> = None | Some(value: T)
}
