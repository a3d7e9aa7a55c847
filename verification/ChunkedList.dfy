/** The linked list of chunks, kept equal to a `View` of the log. */
module Chunked {
  import opened QueueTypes
  import opened LogView
  import opened Chunk
  import opened Memory

  /** What one expiry pass took from one chunk. */
  datatype RemovalInfo = RemovalInfo(element: ChunkNode, removedCount: int, oldHead: int, newHead: int)

  ghost function InfoStart(r: RemovalInfo): int { r.element.base + r.oldHead }

  ghost function InfoEnd(r: RemovalInfo): int { r.element.base + r.newHead }

  /**
   The removal records of a pass that raised the mark from `lo` to `hi` over a
   list whose chunks were `chunks`: adjacent intervals of the log, one for each
   chunk of a prefix of the list.
   */
  ghost predicate InfoSpans(info: seq<RemovalInfo>, chunks: seq<ChunkNode>, lo: nat, hi: nat) {
    && |info| <= |chunks|
    && (forall j :: 0 <= j < |info| ==>
          && info[j].element == chunks[j]
          && info[j].removedCount == info[j].newHead - info[j].oldHead > 0
          && InfoStart(info[j]) == (if j == 0 then lo else chunks[j].base)
          && InfoEnd(info[j]) == (if j == |info| - 1 then hi else chunks[j].base + CHUNK_SIZE)
          && InfoEnd(info[j]) <= chunks[j].base + CHUNK_SIZE)
    && (info == [] ==> lo == hi)
  }

  lemma InfoExtend(info: seq<RemovalInfo>, chunks: seq<ChunkNode>, lo: nat, mid: nat, hi: nat, r: RemovalInfo)
    requires InfoSpans(info, chunks, lo, mid) && |info| < |chunks|
    requires r.element == chunks[|info|] && InfoStart(r) == mid && InfoEnd(r) == hi
    requires r.removedCount == r.newHead - r.oldHead > 0 && r.newHead <= CHUNK_SIZE
    requires info != [] ==> mid == r.element.base == chunks[|info| - 1].base + CHUNK_SIZE
    ensures InfoSpans(info + [r], chunks, lo, hi)
  {
  }

  /** After a pass each chunk of the old list is still listed or lies below the mark. */
  ghost predicate Swept(cs: seq<ChunkNode>, v: View, chunks: seq<ChunkNode>)
    reads cs
  {
    forall k :: 0 <= k < |cs| ==>
      if cs[k].pooled then v.mark >= Min(cs[k].base + CHUNK_SIZE, |v.log|) else cs[k] in chunks
  }

  /** The `k`-th chunk has the fields that the layout gives it, with its slots perhaps zeroed,
      and leads to the next one. */
  ghost predicate Shaped(cs: seq<ChunkNode>, w: View, k: nat)
    requires k < |cs|
    reads cs
  {
    var c := cs[k];
    && |c.data| == CHUNK_SIZE && c.base == w.BaseOf(k) && c.size == w.SizeOf(k) && c.head == w.HeadOf(k)
    && c.next == if k + 1 < |cs| then cs[k + 1] else null
  }

  /** Chunks in the layout of `w`, linked in order. */
  ghost predicate Chain(cs: seq<ChunkNode>, w: View)
    reads cs
  {
    w.Ok() && w.Fits(|cs|) && forall k :: 0 <= k < |cs| ==> Shaped(cs, w, k)
  }

  /** What Clear leaves behind: the chunks that were listed, in the layout they had. */
  datatype Grave = Grave(dead: seq<ChunkNode>, view: View) {
    ghost predicate Pooled(k: nat)
      requires k < |dead|
      reads dead[k]
    {
      dead[k].pooled
    }

    ghost predicate Laid(owned: set<ChunkNode>)
      reads owned
    {
      && (forall k :: 0 <= k < |dead| ==> dead[k] in owned)
      && (forall k :: 0 <= k < |dead| ==> Pooled(k))
      && Chain(dead, view)
    }
  }

  class ChunkedList {
    var chunks: seq<ChunkNode>
    var totalItems: int
    const tracker: MemoryTracker
    ghost var view: View
    ghost var owned: set<ChunkNode>  // every chunk this list has created

    constructor (tracker: MemoryTracker)
      requires tracker.totalMemory == 0
      ensures this.tracker == tracker && chunks == [] && view == View([], 0, 0) && owned == {}
      ensures Valid()
    {
      this.tracker := tracker;
      chunks, totalItems := [], 0;
      view := View([], 0, 0);
      owned := {};
    }

    ghost predicate Owns()
      reads `chunks, `owned
    {
      forall k :: 0 <= k < |chunks| ==> chunks[k] in owned
    }

    /** The chunks that a change of the list may touch. */
    ghost function InUse(): set<ChunkNode>
      reads `chunks, `owned
    {
      if chunks == [] then {} else owned
    }

    /** NextElement pointers spell out the list order. */
    ghost predicate Linked()
      requires Owns()
      reads `chunks, `owned, owned`next
    {
      && (forall k {:trigger chunks[k].next} :: 0 <= k < |chunks| - 1 ==> chunks[k].next == chunks[k + 1])
      && (chunks != [] ==> chunks[|chunks| - 1].next == null)
    }

    ghost predicate Filled()
      requires Owns()
      reads `chunks, `owned, `view, owned`data, owned`size, owned`head, owned`pooled
    {
      forall k :: 0 <= k < |chunks| ==>
        chunks[k].Stores(view.log, view.BaseOf(k), view.SizeOf(k), view.HeadOf(k))
    }

    /** The representation, where the back chunk may still be empty. */
    ghost predicate Layout()
      reads `chunks, `owned, `view, owned
    {
      view.Ok() && Owns() && Linked() && Filled()
    }

    ghost predicate Structure()
      reads this, tracker, owned
    {
      && Layout()
      && view.Fits(|chunks|)
      && tracker.totalMemory == Bytes(view.log, view.mark) + CHUNK_NODE_SIZE * |chunks|
    }

    ghost predicate Valid()
      reads this, tracker, owned
    {
      Structure() && totalItems == |view.log| - view.mark
    }

    /** The list is empty for good and its last chunks lie in `grave`. */
    ghost predicate Buries(grave: Option<Grave>)
      reads this, owned
    {
      grave.Some? ==>
        && chunks == [] && view.mark == |view.log| && grave.value.view.log == view.log
        && grave.value.Laid(owned)
    }

    lemma ListIsChain()
      requires Valid()
      ensures Chain(chunks, view)
    {
    }

    /** Links the empty chunk `last`, which starts where the log ends, at the back. */
    method Link(last: ChunkNode)
      requires Layout() && |view.log| == view.front + CHUNK_SIZE * |chunks|
      requires last !in owned && last.next == null
      requires last.Stores(view.log, |view.log|, 0, 0)
      modifies `chunks, `owned, owned`next
      ensures chunks == old(chunks) + [last] && owned == old(owned) + {last}
      ensures Layout()
    {
      if chunks != [] {
        chunks[|chunks| - 1].next := last;
      }
      chunks := chunks + [last];
      owned := owned + {last};
    }

    method PushBack() returns (last: ChunkNode)
      requires Layout() && |view.log| == view.front + CHUNK_SIZE * |chunks|
      requires 0 <= tracker.totalMemory <= MAX_INT64 - CHUNK_NODE_SIZE
      modifies `chunks, `owned, tracker, owned`next
      ensures fresh(last) && chunks == old(chunks) + [last] && owned == old(owned) + {last} && Layout()
      ensures tracker.totalMemory == old(tracker.totalMemory) + CHUNK_NODE_SIZE
    {
      last := new ChunkNode(|view.log|);
      Link(last);
      tracker.AddChunk();
    }

    /** The back chunk, or a new one when there is none with room. */
    method BackWithRoom() returns (last: ChunkNode)
      requires Layout() && view.Fits(|chunks|)
      requires 0 <= tracker.totalMemory <= MAX_INT64 - CHUNK_NODE_SIZE
      modifies `chunks, `owned, tracker, owned`next
      ensures Layout() && old(chunks) <= chunks && chunks != [] && last == chunks[|chunks| - 1]
      ensures view.BaseOf(|chunks| - 1) <= |view.log| < view.BaseOf(|chunks|)
      ensures old(owned) <= owned && fresh(owned - old(owned))
      ensures tracker.totalMemory == old(tracker.totalMemory) + CHUNK_NODE_SIZE * (|chunks| - |old(chunks)|)
    {
      if |chunks| == 0 {
        last := PushBack();
      } else {
        last := chunks[|chunks| - 1];
        if last.IsFull() {
          last := PushBack();
        }
      }
    }

    /** Writes `item` into the next slot of the back chunk, which has room. */
    method Put(last: ChunkNode, item: Item) returns (ok: bool)
      requires Layout() && Sized(item)
      requires chunks != [] && last == chunks[|chunks| - 1]
      requires view.BaseOf(|chunks| - 1) <= |view.log| < view.BaseOf(|chunks|)
      requires 0 <= tracker.totalMemory <= MAX_INT64 - item.size
      modifies `view, `totalItems, tracker, last`size, last`data
      ensures ok && Layout() && view == old(view).Append([item])
      ensures totalItems == old(totalItems) + 1
      ensures tracker.totalMemory == old(tracker.totalMemory) + item.size
    {
      ok := last.Add(item);
      if ok {
        tracker.AddData(item);
        totalItems := totalItems + 1;
        view := view.Append([item]);
        forall k | 0 <= k < |chunks|
          ensures chunks[k].Stores(view.log, view.BaseOf(k), view.SizeOf(k), view.HeadOf(k))
        {
          assert old(chunks[k].Stores(view.log, view.BaseOf(k), view.SizeOf(k), view.HeadOf(k)));
        }
      }
    }

    /** The append shared by Enqueue and EnqueueBatch; `ok` is the result of chunk.Add. */
    method Append(item: Item) returns (ok: bool)
      requires Valid() && Sized(item)
      requires tracker.totalMemory + CHUNK_NODE_SIZE + item.size <= MAX_INT64
      modifies this, tracker, owned
      ensures ok && Valid() && view == old(view).Append([item])
      ensures old(chunks) <= chunks && old(owned) <= owned && fresh(owned - old(owned))
    {
      BytesNonNegative(view.log, view.mark);
      BytesAppend(view.log, item, view.mark);
      var last := BackWithRoom();
      ok := Put(last, item);
    }

    /** Takes the items that left the log at position `p` off the books. */
    method Release(items: seq<Item>, ghost log: seq<Item>, ghost p: nat, ghost rest: nat)
      requires AllSized(log) && p + |items| <= |log| && items == log[p..p + |items|]
      requires tracker.totalMemory == Bytes(log, p) + rest
      modifies `totalItems, tracker
      ensures totalItems == old(totalItems) - |items|
      ensures tracker.totalMemory == Bytes(log, p + |items|) + rest
    {
      for i := 0 to |items|
        invariant totalItems == old(totalItems) - i
        invariant tracker.totalMemory == Bytes(log, p + i) + rest
      {
        BytesNonNegative(log, p + i + 1);
        tracker.RemoveData(items[i]);
        totalItems := totalItems - 1;
      }
    }

    /** list.Remove, RemoveChunk and PutChunkNode for the front chunk. */
    method Unlink(chunk: ChunkNode)
      requires Owns() && Linked() && chunks != [] && chunk == chunks[0]
      requires tracker.totalMemory >= CHUNK_NODE_SIZE
      modifies `chunks, tracker, chunk`pooled
      ensures chunks == old(chunks)[1..] && chunk.pooled && Owns() && Linked()
      ensures tracker.totalMemory == old(tracker.totalMemory) - CHUNK_NODE_SIZE
    {
      chunks := chunks[1..];
      tracker.RemoveChunk();
      chunk.pooled := true;
    }

    /** The other chunks of the list are distinct from the front one. */
    lemma FrontIsApart()
      requires Layout() && chunks != []
      ensures chunks[0] !in chunks[1..]
    {
      assert forall k :: 0 <= k < |chunks| ==> chunks[k].base == view.BaseOf(k);
    }

    /** The list but for the contents of its front chunk, in which position `q` lies. */
    ghost predicate BehindFront(q: nat)
      reads `chunks, `owned, `view, owned
    {
      && view.Ok() && Owns() && Linked() && view.Fits(|chunks|) && chunks != [] && chunks[0] !in chunks[1..]
      && view.mark <= q <= Min(view.BaseOf(1), |view.log|)
      && forall k :: 1 <= k < |chunks| ==> chunks[k].Stores(view.log, view.BaseOf(k), view.SizeOf(k), 0)
    }

    /** Everything up to position `q` is off the books; the view and the front chunk lag behind. */
    ghost predicate Released(q: nat)
      reads this, tracker, owned
    {
      BehindFront(q) && tracker.totalMemory == Bytes(view.log, q) + CHUNK_NODE_SIZE * |chunks|
    }

    /** Unlinks the front chunk, every slot of which is gone. */
    method DropFront(chunk: ChunkNode, ghost q: nat)
      requires Released(q) && chunk == chunks[0] && q == Min(view.BaseOf(1), |view.log|)
      modifies `chunks, `view, tracker, chunk`pooled
      ensures chunks == old(chunks)[1..] && chunk.pooled
      ensures view == View(old(view).log, q, q)
      ensures Structure()
    {
      BytesNonNegative(view.log, q);
      Unlink(chunk);
      view := View(view.log, q, q);
      forall k | 0 <= k < |chunks|
        ensures chunks[k].Stores(view.log, view.BaseOf(k), view.SizeOf(k), view.HeadOf(k))
      {
        assert old(chunks[k + 1].Stores(view.log, view.BaseOf(k + 1), view.SizeOf(k + 1), 0));
        assert chunks[k] != chunk;
      }
    }

    /** Raises the mark inside the front chunk, whose head has already moved. */
    ghost method KeepFront(q: nat)
      requires Released(q) && q < Min(view.BaseOf(1), |view.log|)
      requires chunks[0].Stores(view.log, view.BaseOf(0), view.SizeOf(0), q - view.front)
      modifies `view
      ensures view == View(old(view).log, q, old(view).front)
      ensures Structure()
    {
      view := View(view.log, q, view.front);
    }

    /** Removes the expired prefix of the front chunk; the books and the view lag behind. */
    method TakeExpired(chunk: ChunkNode, now: int, ttl: int) returns (removed: int, items: seq<Item>)
      requires Layout() && view.Fits(|chunks|) && chunks != [] && chunk == chunks[0]
      modifies chunk`head, chunk`data
      ensures 0 <= removed && BehindFront(view.mark + removed)
      ensures items == view.log[view.mark..view.mark + removed]
      ensures chunk.Stores(view.log, view.BaseOf(0), view.SizeOf(0), view.mark + removed - view.front)
      ensures Surviving(view.log, view.mark + removed, now, ttl) == Surviving(view.log, view.mark, now, ttl)
      ensures view.mark + removed < Min(view.BaseOf(1), |view.log|) ==>
        !Expired(view.log[view.mark + removed], now, ttl)
    {
      FrontIsApart();
      assert chunk.Stores(view.log, view.front, view.SizeOf(0), view.mark - view.front);
      removed, items := chunk.RemoveExpired(now, ttl, view.log);
      SurvivingSkip(view.log, view.mark, view.mark + removed, now, ttl);
    }

    /** Takes the removed items off the books. */
    method ReleaseFront(items: seq<Item>, ghost q: nat)
      requires BehindFront(q) && items == view.log[view.mark..q]
      requires tracker.totalMemory == Bytes(view.log, view.mark) + CHUNK_NODE_SIZE * |chunks|
      modifies `totalItems, tracker
      ensures Released(q) && totalItems == old(totalItems) - (q - view.mark)
    {
      Release(items, view.log, view.mark, CHUNK_NODE_SIZE * |chunks|);
    }

    /** Drops the front chunk if it is empty; otherwise the clock test on its oldest item
        decides whether the pass stops. */
    method SettleFront(chunk: ChunkNode, now: int, ttl: int, ghost q: nat) returns (stop: bool)
      requires Released(q) && chunk == chunks[0] && totalItems == |view.log| - q
      requires chunk.Stores(view.log, view.BaseOf(0), view.SizeOf(0), q - view.front)
      requires q < Min(view.BaseOf(1), |view.log|) ==> !Expired(view.log[q], now, ttl)
      modifies `chunks, `view, tracker, chunk`pooled
      ensures Valid() && view.log == old(view).log && view.mark == q
      ensures stop <==> q < Min(old(view).BaseOf(1), |view.log|)
      ensures !stop ==> chunks == old(chunks)[1..] && chunk.pooled && view.front == q
      ensures stop ==> chunks == old(chunks) && view.front == old(view).front
    {
      if chunk.IsEmpty() {
        DropFront(chunk, q);
        stop := false;
      } else {
        var earliest := chunk.EarliestCreated();
        stop := earliest.Some? && now - earliest.value <= ttl;
        KeepFront(q);
      }
    }

    /** One turn of the expiry loop: the front chunk loses its expired prefix. */
    method ExpireFront(chunk: ChunkNode, now: int, ttl: int)
      returns (removed: int, info: RemovalInfo, stop: bool)
      requires Valid() && chunks != [] && chunk == chunks[0]
      modifies `chunks, `view, `totalItems, tracker, chunk
      ensures Valid() && view.log == old(view).log && view.mark == old(view).mark + removed >= old(view).mark
      ensures Surviving(view.log, view.mark, now, ttl) == Surviving(view.log, old(view).mark, now, ttl)
      ensures info == RemovalInfo(chunk, removed, old(view.mark) - chunk.base, view.mark - chunk.base)
      ensures info.newHead <= CHUNK_SIZE
      ensures !stop ==> chunks == old(chunks)[1..] && chunk.pooled && removed > 0
      ensures !stop ==> view.mark == view.front == Min(old(view).BaseOf(1), |view.log|)
      ensures stop ==> chunks == old(chunks) && view.front == old(view).front
      ensures stop ==> Surviving(view.log, view.mark, now, ttl) == view.mark < |view.log|
    {
      var oldHead := chunk.head;
      var items;
      removed, items := TakeExpired(chunk, now, ttl);
      ghost var log, p, q := view.log, view.mark, view.mark + removed;
      assert Surviving(log, q, now, ttl) == Surviving(log, p, now, ttl);
      ReleaseFront(items, q);
      info := RemovalInfo(chunk, removed, oldHead, chunk.head);
      stop := SettleFront(chunk, now, ttl, q);
      assert view.log == log && view.mark == q;
    }

    /** A pass over the chunks `cs`, begun at view `v`, has dropped `n` of them. */
    ghost predicate Passed(v: View, cs: seq<ChunkNode>, n: nat)
      reads this, tracker, owned
    {
      && Valid() && (forall k :: 0 <= k < |cs| ==> cs[k] in owned)
      && view.log == v.log && v.mark <= view.mark
      && n <= |cs| && chunks == cs[n..]
      && view.front == (if n == |cs| then |v.log| else v.BaseOf(n))
      && forall k :: 0 <= k < n ==> cs[k].pooled
    }

    method Turn(now: int, ttl: int, ghost v: View, ghost cs: seq<ChunkNode>, ghost n: nat)
      returns (removed: int, record: RemovalInfo, stop: bool)
      requires Passed(v, cs, n) && chunks != []
      modifies `chunks, `view, `totalItems, tracker, owned
      ensures record.element == cs[n] && record.newHead <= CHUNK_SIZE
      ensures removed == record.newHead - record.oldHead == record.removedCount >= 0
      ensures InfoStart(record) == old(view).mark && InfoEnd(record) == view.mark
      ensures Passed(v, cs, if stop then n else n + 1)
      ensures !stop ==> removed > 0 && view.mark == view.front
      ensures Surviving(v.log, view.mark, now, ttl) == Surviving(v.log, old(view).mark, now, ttl)
      ensures stop ==> Surviving(v.log, view.mark, now, ttl) == view.mark
    {
      FrontIsApart();
      removed, record, stop := ExpireFront(chunks[0], now, ttl);
    }

    /** A turn together with its removal record, which continues the earlier ones. */
    method RecordedTurn(now: int, ttl: int, info: seq<RemovalInfo>, ghost v: View, ghost cs: seq<ChunkNode>)
      returns (removed: int, info': seq<RemovalInfo>, stop: bool)
      requires Passed(v, cs, |info|) && chunks != []
      requires |info| > 0 ==> view.mark == view.front
      requires forall k :: 0 <= k < |cs| ==> cs[k].base == v.BaseOf(k)
      requires InfoSpans(info, cs, v.mark, view.mark)
      modifies `chunks, `view, `totalItems, tracker, owned
      ensures view.mark == old(view).mark + removed
      ensures Passed(v, cs, if stop then |info| else |info| + 1)
      ensures !stop ==> |info'| == |info| + 1 && view.mark == view.front
      ensures InfoSpans(info', cs, v.mark, view.mark)
      ensures Surviving(v.log, view.mark, now, ttl) == Surviving(v.log, old(view).mark, now, ttl)
      ensures stop ==> Surviving(v.log, view.mark, now, ttl) == view.mark
    {
      var record;
      removed, record, stop := Turn(now, ttl, v, cs, |info|);
      info' := info;
      if removed > 0 {
        InfoExtend(info, cs, v.mark, old(view).mark, view.mark, record);
        info' := info + [record];
      }
    }

    /** The loop of the pass over the chunks `cs`, begun at view `v`; `n` of them go. */
    method ExpireChunks(now: int, ttl: int, ghost v: View, ghost cs: seq<ChunkNode>)
      returns (total: int, info: seq<RemovalInfo>, ghost n: nat)
      requires Passed(v, cs, 0) && v == view
      modifies `chunks, `view, `totalItems, tracker, owned
      ensures Passed(v, cs, n) && total == view.mark - v.mark
      ensures view.mark == Surviving(v.log, v.mark, now, ttl)
      ensures InfoSpans(info, cs, v.mark, view.mark)
    {
      total, info, n := 0, [], 0;
      assert forall k :: 0 <= k < |cs| ==> cs[k].base == v.BaseOf(k);
      while chunks != []
        invariant Passed(v, cs, n) && total == view.mark - v.mark
        invariant Surviving(v.log, view.mark, now, ttl) == Surviving(v.log, v.mark, now, ttl)
        invariant |info| == n && InfoSpans(info, cs, v.mark, view.mark)
        invariant n > 0 ==> view.mark == view.front
        decreases |cs| - n
      {
        var removed, stop;
        removed, info, stop := RecordedTurn(now, ttl, info, v, cs);
        total := total + removed;
        if stop {
          break;
        }
        n := n + 1;
      }
    }

    lemma PassedSwept(v: View, cs: seq<ChunkNode>, n: nat)
      requires Passed(v, cs, n) && forall k :: 0 <= k < |cs| ==> cs[k].base == v.BaseOf(k)
      ensures Swept(cs, view, chunks)
    {
      forall k | n <= k < |cs|
        ensures !cs[k].pooled && cs[k] in chunks
      {
        assert cs[k] == chunks[k - n];
      }
    }

    /**
     The expiry pass. With one clock reading `now`, a chunk that is not emptied
     ends the pass, so what goes is the longest expired prefix of the whole log.
     */
    method RemoveExpiredData(now: int, ttl: int) returns (total: int, info: seq<RemovalInfo>)
      requires Valid()
      modifies `chunks, `view, `totalItems, tracker, InUse()
      ensures Valid() && total == view.mark - old(view).mark
      ensures view == old(view).Advance(Surviving(old(view).log, old(view).mark, now, ttl))
      ensures InfoSpans(info, old(chunks), old(view).mark, view.mark)
      ensures Swept(old(chunks), view, chunks)
      ensures total == 0 ==> chunks == old(chunks) && view == old(view)
    {
      if chunks == [] {
        return 0, [];
      }
      ghost var v, cs, n := view, chunks, 0;
      assert forall k :: 0 <= k < |cs| ==> cs[k].base == v.BaseOf(k);
      total, info, n := ExpireChunks(now, ttl, view, chunks);
      if chunks != [] {
        AdvanceByChunks(v, n, view.mark);
      }
      PassedSwept(v, cs, n);
    }

    lemma Accounted()
      requires Valid()
      ensures tracker.totalMemory == view.Memory() >= 0
    {
      ChunkCount(view, |chunks|);
      BytesNonNegative(view.log, view.mark);
    }

    /** Appends one item if its bytes fit under the limit. */
    method Enqueue(item: Item) returns (error: Option<Error>)
      requires Valid() && Sized(item) && FitsInt64(tracker.maxMemory)
      modifies this, tracker, owned
      ensures Valid() && old(chunks) <= chunks && old(owned) <= owned && fresh(owned - old(owned))
      ensures old(view).Memory() + item.size <= tracker.maxMemory ==>
        error == None && view == old(view).Append([item])
      ensures old(view).Memory() + item.size > tracker.maxMemory ==>
        error == Some(MemoryLimit(old(view).Memory(), tracker.maxMemory, item.size)) && view == old(view)
    {
      Accounted();
      if !tracker.CanAddData(item) {
        return Some(MemoryLimit(tracker.totalMemory, tracker.maxMemory, item.size));
      }
      var ok := Append(item);
      return None;
    }

    /** Appends every item; `ok` is false in the branch taken when a chunk.Add fails. */
    method EnqueueBatch(items: seq<Item>) returns (ok: bool)
      requires Valid() && AllSized(items) && FitsInt64(tracker.maxMemory)
      requires view.Memory() + Bytes(items, 0) <= tracker.maxMemory
      modifies this, tracker, owned
      ensures Valid() && old(chunks) <= chunks && old(owned) <= owned && fresh(owned - old(owned))
      ensures ok && view == old(view).Append(items)
    {
      ghost var v := view;
      for i := 0 to |items|
        invariant Valid() && old(chunks) <= chunks && old(owned) <= owned && fresh(owned - old(owned))
        invariant view == v.Append(items[..i])
      {
        BatchRoom(v, items, i, tracker.maxMemory);
        Accounted();
        ok := Append(items[i]);
        if !ok {
          return false;
        }
        AppendSteps(v, items, i);
      }
      assert items[..|items|] == items;
      return true;
    }

    /** Clear's inner loop: releases and zeroes the live slots of the front chunk. */
    method WipeFront(chunk: ChunkNode)
      requires Structure() && chunks != [] && chunk == chunks[0]
      modifies tracker, chunk`data
      ensures |chunk.data| == CHUNK_SIZE
      ensures tracker.totalMemory ==
        Bytes(view.log, Min(view.BaseOf(1), |view.log|)) + CHUNK_NODE_SIZE * |chunks|
    {
      var i := chunk.head;
      while i < chunk.size
        invariant chunk.head <= i <= chunk.size && |chunk.data| == CHUNK_SIZE
        invariant forall j :: i <= j < chunk.size ==> chunk.data[j] == view.log[chunk.base + j]
        invariant tracker.totalMemory == Bytes(view.log, chunk.base + i) + CHUNK_NODE_SIZE * |chunks|
      {
        BytesNonNegative(view.log, chunk.base + i + 1);
        tracker.RemoveData(chunk.data[i]);
        chunk.data := chunk.data[i := ZERO_ITEM];
        i := i + 1;
      }
    }

    method ClearFront(chunk: ChunkNode)
      requires Structure() && chunks != [] && chunk == chunks[0]
      modifies `chunks, `view, tracker, chunk`data, chunk`pooled
      ensures Structure() && view.log == old(view).log
      ensures chunks == old(chunks)[1..] && chunk.pooled && |chunk.data| == CHUNK_SIZE
    {
      FrontIsApart();
      WipeFront(chunk);
      DropFront(chunk, Min(view.BaseOf(1), |view.log|));
    }

    /** Of the chunks `cs`, the first `n` have been cleared. */
    ghost predicate Wiped(cs: seq<ChunkNode>, n: nat)
      reads `chunks, `owned, owned`data, owned`pooled
    {
      && n <= |cs| && chunks == cs[n..] && (forall k :: 0 <= k < |cs| ==> cs[k] in owned)
      && forall k :: 0 <= k < n ==> cs[k].pooled && |cs[k].data| == CHUNK_SIZE
    }

    method ClearNext(ghost cs: seq<ChunkNode>, ghost n: nat)
      requires Structure() && Wiped(cs, n) && chunks != []
      modifies `chunks, `view, tracker, owned`data, owned`pooled
      ensures Structure() && view.log == old(view).log && Wiped(cs, n + 1)
    {
      assert !chunks[0].pooled;
      ClearFront(chunks[0]);
    }

    method ClearChunks(ghost cs: seq<ChunkNode>)
      requires Structure() && cs == chunks
      modifies `chunks, `view, tracker
      modifies InUse()`data, InUse()`pooled
      ensures Structure() && chunks == [] && view.log == old(view).log && Wiped(cs, |cs|)
    {
      ghost var n := 0;
      while |chunks| > 0
        invariant Structure() && view.log == old(view).log && Wiped(cs, n)
        decreases |chunks|
      {
        ClearNext(cs, n);
        n := n + 1;
      }
    }

    /** Empties the list and pools every chunk; sizes, heads and links stay as they were. */
    method Clear()
      requires Valid()
      modifies `chunks, `view, `totalItems, tracker
      modifies InUse()`data, InUse()`pooled
      ensures Valid() && chunks == []
      ensures view == old(view).Advance(|old(view).log|)
      ensures forall k :: 0 <= k < |old(chunks)| ==>
        old(chunks)[k].pooled && |old(chunks)[k].data| == CHUNK_SIZE
    {
      ClearChunks(chunks);
      totalItems := 0;
    }

    /** Counts the slots between head and size from slot `index` of `element` on, along
        NextElement: the unread items of a list, or what was unread in one that is gone. */
    method CountItemsFrom(element: ChunkNode, index: int, ghost cs: seq<ChunkNode>, ghost w: View)
      returns (count: int)
      requires Chain(cs, w) && element in cs && 0 <= index <= element.size
      ensures count == |w.log| - Max(element.base + index, w.mark)
    {
      count := 0;
      var current: ChunkNode?, at := element, index;
      ghost var k :| 0 <= k < |cs| && cs[k] == element;
      while current != null
        invariant current != null ==> 0 <= k < |cs| && current == cs[k] && 0 <= at <= current.size
        invariant current != null ==>
          count == Max(current.base + at, w.mark) - Max(element.base + index, w.mark)
        invariant current == null ==> count == |w.log| - Max(element.base + index, w.mark)
        decreases |cs| - k, if current == null then 0 else 1
      {
        assert Shaped(cs, w, k);
        var i := at;
        while i < current.size
          invariant at <= i <= current.size
          invariant count == Max(current.base + i, w.mark) - Max(element.base + index, w.mark)
        {
          if current.Get(i) != None {
            count := count + 1;
          }
          i := i + 1;
        }
        current, at := current.next, 0;
        k := k + 1;
        assert k < |cs| ==> Shaped(cs, w, k);
      }
    }
  }
}
