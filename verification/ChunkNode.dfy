/** A chunk: a fixed buffer of slots filled from the left and expired from the left. */
module Chunk {
  import opened QueueTypes

  /**
   A list element together with the chunk it holds; `next` is NextElement. The Go
   buffer is an array stored inside the struct, hence a value: a sequence field of
   fixed length. The ghost constant `base` is the log position of slot 0: slots
   never shift.
   */
  class ChunkNode {
    var data: seq<Item>
    var size: int
    var head: int
    var next: ChunkNode?
    var pooled: bool
    ghost const base: nat

    constructor (ghost base: nat)
      ensures |data| == CHUNK_SIZE
      ensures size == 0 && head == 0 && next == null && !pooled
      ensures this.base == base
    {
      this.data := seq(CHUNK_SIZE, _ => ZERO_ITEM);
      this.size, this.head := 0, 0;
      this.next, this.pooled := null, false;
      this.base := base;
    }

    ghost predicate Bounded()
      reads this
    {
      |data| == CHUNK_SIZE && 0 <= head <= size <= CHUNK_SIZE
    }

    /** An unpooled chunk with the given fields whose live slots agree with the log. */
    ghost predicate Stores(log: seq<Item>, base: int, size: int, head: int)
      reads `data, `size, `head, `pooled
    {
      && |data| == CHUNK_SIZE && 0 <= head <= size <= CHUNK_SIZE
      && this.base == base && this.size == size && this.head == head && !pooled
      && base + size <= |log|
      && forall i :: head <= i < size ==> data[i] == log[base + i]
    }

    predicate IsFull()
      reads this
    {
      size >= CHUNK_SIZE
    }

    predicate IsEmpty()
      reads this
    {
      head == size
    }

    /** The item in a live slot, or None outside the live range. */
    function Get(index: int): (r: Option<Item>)
      requires Bounded()
      reads this
      ensures r.Some? <==> head <= index < size
      ensures r.Some? ==> r.value == data[index]
    {
      if index < head || index >= size then None else Some(data[index])
    }

    method Add(item: Item) returns (ok: bool)
      requires Bounded()
      modifies `size, `data
      ensures ok <==> old(size) < CHUNK_SIZE
      ensures ok ==> size == old(size) + 1 && data == old(data)[old(size) := item]
      ensures !ok ==> size == old(size) && data == old(data)
    {
      if size >= CHUNK_SIZE {
        return false;
      }
      data := data[size := item];
      size := size + 1;
      return true;
    }

    /** Removes the longest expired prefix of the live slots and returns it. */
    method RemoveExpired(now: int, ttl: int, ghost log: seq<Item>) returns (removed: int, items: seq<Item>)
      requires Stores(log, base, size, head)
      modifies `head, `data
      ensures 0 <= removed && Stores(log, base, size, old(head) + removed)
      ensures items == log[base + old(head)..base + head]
      ensures forall i :: base + old(head) <= i < base + head ==> Expired(log[i], now, ttl)
      ensures head < size ==> !Expired(log[base + head], now, ttl)
    {
      removed, items := 0, [];
      var i := head;
      while i < size
        invariant old(head) <= i <= size && removed == i - old(head)
        invariant Stores(log, base, size, i)
        invariant items == log[base + old(head)..base + i]
        invariant forall j :: base + old(head) <= j < base + i ==> Expired(log[j], now, ttl)
      {
        if !Expired(data[i], now, ttl) {
          break;
        }
        items := items + [data[i]];
        data := data[i := ZERO_ITEM];
        head := head + 1;
        removed := removed + 1;
        i := i + 1;
      }
    }

    /** Creation time of the oldest live item. */
    function EarliestCreated(): (r: Option<int>)
      requires Bounded()
      reads this
      ensures r.None? <==> IsEmpty()
      ensures r.Some? ==> forall now, ttl :: now - r.value <= ttl <==> !Expired(data[head], now, ttl)
    {
      if head == size then None else Some(data[head].created)
    }
  }
}
