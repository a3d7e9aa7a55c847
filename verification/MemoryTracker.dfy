/** The byte counter: int64 additions, and subtractions clamped at zero. */
module Memory {
  import opened QueueTypes

  class MemoryTracker {
    var totalMemory: int
    const maxMemory: int

    constructor (maxMemory: int)
      ensures totalMemory == 0
      ensures this.maxMemory == if maxMemory <= 0 then DEFAULT_MAX_MEMORY else maxMemory
    {
      totalMemory := 0;
      this.maxMemory := if maxMemory <= 0 then DEFAULT_MAX_MEMORY else maxMemory;
    }

    predicate CanAddData(item: Item)
      reads this
    {
      item.size >= 0 && totalMemory <= maxMemory - item.size
    }

    method AddData(item: Item)
      modifies this
      ensures totalMemory == if item.size > 0 then Add64(old(totalMemory), item.size) else old(totalMemory)
      ensures 0 <= item.size && 0 <= old(totalMemory) <= MAX_INT64 - item.size ==>
        totalMemory == old(totalMemory) + item.size
    {
      if item.size > 0 {
        totalMemory := Add64(totalMemory, item.size);
      }
    }

    method RemoveData(item: Item)
      modifies this
      ensures totalMemory == if item.size > 0 then Max(old(totalMemory) - item.size, 0) else old(totalMemory)
    {
      if item.size <= 0 {
        return;
      }
      var newVal := totalMemory - item.size;
      if newVal < 0 {
        newVal := 0;
      }
      totalMemory := newVal;
    }

    method AddChunk()
      modifies this
      ensures totalMemory == Add64(old(totalMemory), CHUNK_NODE_SIZE)
      ensures 0 <= old(totalMemory) <= MAX_INT64 - CHUNK_NODE_SIZE ==>
        totalMemory == old(totalMemory) + CHUNK_NODE_SIZE
    {
      totalMemory := Add64(totalMemory, CHUNK_NODE_SIZE);
    }

    method RemoveChunk()
      modifies this
      ensures totalMemory == Max(old(totalMemory) - CHUNK_NODE_SIZE, 0)
    {
      var newVal := totalMemory - CHUNK_NODE_SIZE;
      if newVal < 0 {
        newVal := 0;
      }
      totalMemory := newVal;
    }
  }
}
