/**
 Values shared by every part of the queue model: items, constants, errors and
 the 64-bit arithmetic that the Go source performs on byte counters.
 */
module QueueTypes {

  const CHUNK_SIZE := 1000

  // unsafe.Sizeof values on a 64-bit platform.
  const BASE_DATA_SIZE := 112
  const BASE_EVENT_SIZE := 56
  const CHUNK_NODE_SIZE := 112_240

  const MIN_ITEM_SIZE := BASE_DATA_SIZE + BASE_EVENT_SIZE
  const MAX_INT64 := 0x7FFF_FFFF_FFFF_FFFF
  const DEFAULT_MAX_MEMORY := 1024 * 1024

  datatype Option<+T> = None | Some(value: T)

  /** A queue entry: its identity, creation time and pre-computed byte size. */
  datatype Item = Item(id: nat, created: int, size: int)

  const ZERO_ITEM := Item(0, 0, 0)

  /** What the size estimator guarantees of every item that reaches the queue. */
  predicate Sized(item: Item) {
    MIN_ITEM_SIZE <= item.size <= MAX_INT64
  }

  predicate AllSized(items: seq<Item>) {
    forall i :: 0 <= i < |items| ==> Sized(items[i])
  }

  predicate Expired(item: Item, now: int, ttl: int) {
    now - item.created > ttl
  }

  datatype Error =
    | QueueClosed
    | QueueFull(maxItems: int)
    | MemoryLimit(current: int, max: int, needed: int)
    | Overflow
    | FilterNotSupported

  /** How one pass through an enqueue operation ends; Park is a blocked producer. */
  datatype Admission = Admitted | Rejected(error: Error) | Park

  /** A registered reader: an independent consumer or a whole consumer group. */
  datatype Key = Independent(id: nat) | Group(name: string)

  function Max(a: int, b: int): int { if a < b then b else a }

  function Min(a: int, b: int): int { if a < b then a else b }

  /** Two's-complement 64-bit addition. */
  function Add64(a: int, b: int): int {
    (a + b + 0x8000_0000_0000_0000) % 0x1_0000_0000_0000_0000 - 0x8000_0000_0000_0000
  }
}
