/** Pointer cursors: the position of a consumer, or of a whole consumer group, in the chunks. */
module Cursors {
  import opened QueueTypes
  import opened LogView
  import opened Readers
  import opened Chunk
  import opened Chunked

  /**
   A finished expiry pass: from view `v0` over the chunks `cs` to view `v` over `chunks`,
   with its removal records and the new front of the list.
   */
  datatype Pass = Pass(newFirst: ChunkNode?, info: seq<RemovalInfo>,
                       v0: View, cs: seq<ChunkNode>, v: View, chunks: seq<ChunkNode>)
  {
    ghost predicate Ok()
      reads cs
    {
      && v0.log == v.log && v0.front <= v0.mark <= v.mark <= |v.log|
      && (forall k :: 0 <= k < |cs| ==> cs[k].base == v0.BaseOf(k))
      && InfoSpans(info, cs, v0.mark, v.mark) && Swept(cs, v, chunks)
      && newFirst == (if chunks == [] then null else chunks[0])
      && if newFirst == null then v.mark == |v.log| else newFirst.base <= v.mark
    }
  }

  class Cursor {
    const key: Key  // the id of a Consumer or the name of a ConsumerGroup
    var chunkElement: ChunkNode?
    var indexInChunk: int
    var closed: bool
    var totalItemsRead: int
    ghost var spec: Reader

    constructor (key: Key, first: ChunkNode?, ghost v: View, ghost chunks: seq<ChunkNode>)
      requires v.Ok() && (first != null ==> chunks != [] && first == chunks[0] && first.base == v.front)
      ensures this.key == key && !closed && totalItemsRead == 0
      ensures spec == NewReader(v) && chunkElement == first && Tracks(v) && Stands(v, chunks)
    {
      this.key := key;
      chunkElement, indexInChunk := first, 0;
      closed, totalItemsRead := false, 0;
      spec := NewReader(v);
    }

    /** The cursor stands in the list. */
    ghost predicate Stands(v: View, chunks: seq<ChunkNode>)
      reads `chunkElement, `indexInChunk
    {
      chunkElement != null ==>
        && chunkElement in chunks
        && 0 <= indexInChunk <= CHUNK_SIZE && chunkElement.base + indexInChunk <= |v.log|
    }

    /** The cursor stands in a chunk that Close has thrown away. */
    ghost predicate CutOff(v: View)
      reads `chunkElement, `indexInChunk, if chunkElement == null then {} else {chunkElement}
    {
      && chunkElement != null && chunkElement.pooled
      && v.mark == |v.log| && chunkElement.base + indexInChunk <= |v.log|
    }

    /** The same: it stands in what Clear left behind, at the items that it then lost. */
    ghost predicate Lost(grave: Grave)
      reads `chunkElement, `indexInChunk, `spec
    {
      && chunkElement != null && Stands(grave.view, grave.dead)
      && spec.dropped == |grave.view.log| - Max(chunkElement.base + indexInChunk, grave.view.mark)
    }

    /** The log position that the cursor reads next. */
    ghost function Pos(v: View): int
      reads `chunkElement, `indexInChunk
    {
      if chunkElement == null then v.mark else Max(chunkElement.base + indexInChunk, v.mark)
    }

    /** Reading on from the cursor is reading on from the reader's offset. */
    ghost predicate Tracks(v: View)
      reads this
    {
      && spec.offset <= |v.log| && spec.Next(v) == Pos(v)
      && spec.closed == closed && |spec.delivered| == totalItemsRead
    }

    /** Tracks its reader from a place in the list or, after Clear, from a lost chunk. */
    ghost predicate Placed(v: View, chunks: seq<ChunkNode>, grave: Option<Grave>)
      reads this
    {
      && Tracks(v)
      && match grave
         case None => Stands(v, chunks) && spec.dropped == 0
         case Some(g) => Stands(v, chunks) || Lost(g)
    }

    /** A cursor in the list that Clear has just emptied, with its losses booked. */
    lemma Buried(v: View, cs: seq<ChunkNode>, was: Reader)
      requires v.Ok() && Stands(v, cs) && spec == was.Drop(v) && was.dropped == 0
      requires was.offset <= |v.log| && was.Next(v) == Pos(v)
      requires was.closed == closed && |was.delivered| == totalItemsRead
      ensures Placed(v.Advance(|v.log|), [], Some(Grave(cs, v)))
    {
    }

    ghost predicate On(v: View, chunks: seq<ChunkNode>)
      reads this, if chunkElement == null then {} else {chunkElement}
    {
      Tracks(v) && (Stands(v, chunks) || CutOff(v))
    }

    /** A cursor that has its place can be read on from. */
    lemma PlacedIsOn(list: ChunkedList, grave: Option<Grave>)
      requires list.Buries(grave) && Placed(list.view, list.chunks, grave)
      ensures On(list.view, list.chunks)
    {
      if !Stands(list.view, list.chunks) {
        var dead := grave.value.dead;
        var k :| 0 <= k < |dead| && dead[k] == chunkElement;
        assert grave.value.Pooled(k);
      }
    }

    /** A read leaves the cursor in the list or does not touch it. */
    ghost predicate Kept(v: View, chunks: seq<ChunkNode>, element: ChunkNode?, index: int)
      reads `chunkElement, `indexInChunk
    {
      Stands(v, chunks) || (chunkElement == element && indexInChunk == index)
    }

    method Close()
      modifies `closed, `spec
      ensures closed && spec == old(spec).(closed := true)
    {
      closed := true;
      spec := spec.(closed := true);
    }

    /** The read loop of an independent consumer, which jumps over expired slots. */
    method ConsumerRead(list: ChunkedList) returns (r: Option<Item>)
      requires list.Valid()
      requires Stands(list.view, list.chunks) || CutOff(list.view)
      modifies `chunkElement, `indexInChunk
      ensures Stands(list.view, list.chunks)
      ensures old(Pos(list.view)) < |list.view.log| ==>
        r == Some(list.view.log[old(Pos(list.view))]) && Pos(list.view) == old(Pos(list.view)) + 1
      ensures old(Pos(list.view)) >= |list.view.log| ==> r == None && Pos(list.view) == |list.view.log|
    {
      if chunkElement == null {
        if list.chunks == [] {
          return None;
        }
        chunkElement, indexInChunk := list.chunks[0], 0;
      }
      while true
        invariant chunkElement != null
        invariant Stands(list.view, list.chunks) || CutOff(list.view)
        invariant Pos(list.view) == old(Pos(list.view))
        decreases |list.view.log| - chunkElement.base, CHUNK_SIZE - indexInChunk
      {
        var chunk := chunkElement;
        if chunk.pooled {
          chunkElement, indexInChunk := null, 0;
          return None;
        }
        if indexInChunk < chunk.size {
          r := chunk.Get(indexInChunk);
          if r.Some? {
            indexInChunk := indexInChunk + 1;
            return;
          }
          if indexInChunk < chunk.head {
            indexInChunk := chunk.head;
          } else {
            return None;
          }
        } else {
          if chunk.next == null {
            return None;
          }
          chunkElement, indexInChunk := chunk.next, 0;
        }
      }
    }

    /** The read loop of a consumer group, which steps over expired slots one by one. */
    method GroupRead(list: ChunkedList) returns (r: Option<Item>)
      requires list.Valid()
      requires Stands(list.view, list.chunks) || CutOff(list.view)
      modifies `chunkElement, `indexInChunk
      ensures Stands(list.view, list.chunks)
      ensures old(Pos(list.view)) < |list.view.log| ==>
        r == Some(list.view.log[old(Pos(list.view))]) && Pos(list.view) == old(Pos(list.view)) + 1
      ensures old(Pos(list.view)) >= |list.view.log| ==> r == None && Pos(list.view) == |list.view.log|
    {
      if chunkElement == null {
        if list.chunks == [] {
          return None;
        }
        chunkElement, indexInChunk := list.chunks[0], 0;
      }
      while true
        invariant chunkElement != null
        invariant Stands(list.view, list.chunks) || CutOff(list.view)
        invariant Pos(list.view) == old(Pos(list.view))
        decreases |list.view.log| - chunkElement.base, CHUNK_SIZE - indexInChunk
      {
        var chunk := chunkElement;
        if chunk.pooled {
          chunkElement, indexInChunk := null, 0;
          return None;
        }
        if indexInChunk < chunk.size {
          r := chunk.Get(indexInChunk);
          if r.Some? {
            indexInChunk := indexInChunk + 1;
            return;
          }
          if indexInChunk < chunk.head {
            indexInChunk := indexInChunk + 1;
          } else {
            return None;
          }
        } else {
          if chunk.next == null {
            return None;
          }
          chunkElement, indexInChunk := chunk.next, 0;
        }
      }
    }

    /** No read goes through: the consumer is closed, or the queue of the group is. */
    predicate Blocked(queueClosed: bool)
      reads `closed
    {
      if key.Group? then queueClosed else closed
    }

    method TryRead(list: ChunkedList, queueClosed: bool) returns (r: Option<Item>)
      requires list.Valid() && On(list.view, list.chunks)
      modifies `chunkElement, `indexInChunk, `totalItemsRead, `spec
      ensures On(list.view, list.chunks) && Kept(list.view, list.chunks, old(chunkElement), old(indexInChunk))
      ensures spec.dropped == old(spec).dropped
      ensures !Blocked(queueClosed) && old(spec).Unread(list.view) > 0 ==>
        r == Some(list.view.log[old(spec).Next(list.view)]) && spec == old(spec).Consume(list.view, 1)
      ensures Blocked(queueClosed) || old(spec).Unread(list.view) <= 0 ==> r == None && spec == old(spec)
    {
      if Blocked(queueClosed) {
        return None;
      }
      if key.Group? {
        r := GroupRead(list);
      } else {
        r := ConsumerRead(list);
      }
      if r.Some? {
        totalItemsRead := totalItemsRead + 1;
        spec := spec.Consume(list.view, 1);
      }
    }

    method TryReadBatch(list: ChunkedList, queueClosed: bool, limit: int) returns (items: seq<Item>)
      requires list.Valid() && On(list.view, list.chunks)
      modifies `chunkElement, `indexInChunk, `totalItemsRead, `spec
      ensures On(list.view, list.chunks) && Kept(list.view, list.chunks, old(chunkElement), old(indexInChunk))
      ensures spec.dropped == old(spec).dropped
      ensures (items, spec) ==
        if Blocked(queueClosed) then ([], old(spec)) else Take(old(spec), list.view, Max(limit, 0), [])
    {
      items := [];
      ghost var n := Max(limit, 0);
      while |items| < limit
        invariant On(list.view, list.chunks) && Kept(list.view, list.chunks, old(chunkElement), old(indexInChunk))
        invariant spec.dropped == old(spec).dropped
        invariant |items| <= n
        invariant if Blocked(queueClosed) then items == [] && spec == old(spec)
                  else Take(spec, list.view, n - |items|, items) == Take(old(spec), list.view, n, [])
        decreases limit - |items|
      {
        var r := TryRead(list, queueClosed);
        if r == None {
          break;
        }
        items := items + [r.value];
      }
    }

    method TryReadWhere(list: ChunkedList, queueClosed: bool, want: Item -> bool)
      returns (r: Option<Item>, error: Option<Error>)
      requires list.Valid() && On(list.view, list.chunks)
      modifies `chunkElement, `indexInChunk, `totalItemsRead, `spec
      ensures On(list.view, list.chunks) && Kept(list.view, list.chunks, old(chunkElement), old(indexInChunk))
      ensures spec.dropped == old(spec).dropped
      ensures error == if key.Group? then Some(FilterNotSupported) else None
      ensures (r, spec) ==
        if key.Group? || closed then (None, old(spec)) else Seek(old(spec), list.view, want)
    {
      if key.Group? {
        return None, Some(FilterNotSupported);
      }
      error := None;
      while true
        invariant On(list.view, list.chunks) && Kept(list.view, list.chunks, old(chunkElement), old(indexInChunk))
        invariant spec.dropped == old(spec).dropped
        invariant closed ==> spec == old(spec)
        invariant !closed ==> Seek(spec, list.view, want) == Seek(old(spec), list.view, want)
        decreases spec.Unread(list.view)
      {
        r := TryRead(list, queueClosed);
        if r == None || want(r.value) {
          return;
        }
      }
    }

    /** What a reader is told to be unread: after Clear, a cursor that has not read since
        still sees what it lost. */
    ghost function Visible(v: View, grave: Option<Grave>): int
      reads this
    {
      if grave.Some? && chunkElement != null then spec.dropped else spec.Unread(v)
    }

    /** The chunks that the cursor stands in, and their layout. */
    lemma StandsInChain(list: ChunkedList, grave: Option<Grave>, cs: seq<ChunkNode>, w: View)
      requires list.Valid() && list.Buries(grave) && Placed(list.view, list.chunks, grave)
      requires chunkElement != null
      requires cs == if grave.Some? then grave.value.dead else list.chunks
      requires w == if grave.Some? then grave.value.view else list.view
      ensures Chain(cs, w) && chunkElement in cs && 0 <= indexInChunk <= chunkElement.size
      ensures Visible(list.view, grave) == |w.log| - Max(chunkElement.base + indexInChunk, w.mark)
    {
      list.ListIsChain();
      var k :| 0 <= k < |cs| && cs[k] == chunkElement;
      assert Shaped(cs, w, k);
    }

    /** Whether anything is left to read. */
    method HasMoreData(list: ChunkedList, queueClosed: bool, ghost grave: Option<Grave>) returns (more: bool)
      requires list.Valid() && list.Buries(grave) && Placed(list.view, list.chunks, grave)
      ensures more <==> !Blocked(queueClosed) && Visible(list.view, grave) > 0
    {
      if Blocked(queueClosed) {
        return false;
      }
      if chunkElement == null {
        return list.totalItems != 0;
      }
      ghost var cs := if grave.Some? then grave.value.dead else list.chunks;
      ghost var w := if grave.Some? then grave.value.view else list.view;
      StandsInChain(list, grave, cs, w);
      ghost var k :| 0 <= k < |cs| && cs[k] == chunkElement;
      assert Shaped(cs, w, k);
      if indexInChunk < chunkElement.size {
        return true;
      }
      return chunkElement.next != null;
    }

    /** How much is left to read. */
    method GetUnreadCount(list: ChunkedList, queueClosed: bool, ghost grave: Option<Grave>) returns (count: int)
      requires list.Valid() && list.Buries(grave) && Placed(list.view, list.chunks, grave)
      ensures count == if Blocked(queueClosed) then 0 else Visible(list.view, grave)
    {
      if Blocked(queueClosed) {
        return 0;
      }
      if chunkElement == null {
        return list.totalItems;
      }
      ghost var cs := if grave.Some? then grave.value.dead else list.chunks;
      ghost var w := if grave.Some? then grave.value.view else list.view;
      StandsInChain(list, grave, cs, w);
      count := list.CountItemsFrom(chunkElement, indexInChunk, cs, w);
    }

    /** What record `j` adds to the items taken from the place at `index` of chunk `k` on. */
    static lemma RecordAdds(
      info: seq<RemovalInfo>, v: View, chunks: seq<ChunkNode>, hi: nat, k: nat, index: int, j: nat)
      requires InfoSpans(info, chunks, v.mark, hi) && v.front <= v.mark
      requires forall k :: 0 <= k < |chunks| ==> chunks[k].base == v.BaseOf(k)
      requires k < |chunks| && 0 <= index <= CHUNK_SIZE && j < |info|
      ensures info[j].element == chunks[k] <==> j == k
      ensures
        var r, p := info[j], Max(chunks[k].base + index, v.mark);
        && (j > k ==> Max(InfoEnd(r) - p, 0) == Max(InfoEnd(info[j - 1]) - p, 0) + r.removedCount)
        && (j == k ==>
              Max(InfoEnd(r) - p, 0) ==
              if index >= r.newHead then 0 else if index <= r.oldHead then r.removedCount else r.newHead - index)
    {
      assert v.mark < InfoEnd(info[0]) <= v.BaseOf(1);
      if j > 0 {
        assert InfoEnd(info[j - 1]) == v.BaseOf(j);
      }
    }

    /** The last record ends at the new mark, and chunks without a record lie behind it. */
    static lemma RecordsEnd(info: seq<RemovalInfo>, v: View, chunks: seq<ChunkNode>, hi: nat, k: nat, index: int)
      requires InfoSpans(info, chunks, v.mark, hi) && v.front <= v.mark
      requires forall k :: 0 <= k < |chunks| ==> chunks[k].base == v.BaseOf(k)
      requires k < |chunks| && 0 <= index <= CHUNK_SIZE
      ensures
        var p := Max(chunks[k].base + index, v.mark);
        Max(hi - p, 0) == if k < |info| then Max(InfoEnd(info[|info| - 1]) - p, 0) else 0
    {
      assert info != [] ==> InfoEnd(info[|info| - 1]) == hi <= v.BaseOf(|info|);
    }

    /**
     The unread items that a pass took from under the cursor, from its removal records
     alone: a running count that starts at the cursor's chunk.
     */
    static method CalculateExpiredCount(element: ChunkNode?, index: int, info: seq<RemovalInfo>,
                                        ghost v: View, ghost chunks: seq<ChunkNode>, ghost hi: nat)
      returns (count: int)
      requires InfoSpans(info, chunks, v.mark, hi)
      requires forall k :: 0 <= k < |chunks| ==> chunks[k].base == v.BaseOf(k)
      requires v.front <= v.mark
      requires element != null ==> element in chunks && 0 <= index <= CHUNK_SIZE
      ensures count == Max(hi - (if element == null then v.mark else Max(element.base + index, v.mark)), 0)
    {
      count := 0;
      if element == null {
        for j := 0 to |info|
          invariant count == (if j == 0 then 0 else InfoEnd(info[j - 1]) - v.mark)
        {
          count := count + info[j].removedCount;
        }
        return;
      }
      ghost var k :| 0 <= k < |chunks| && chunks[k] == element;
      var found := false;
      for j := 0 to |info|
        invariant found <==> k < j
        invariant count == if found then Max(InfoEnd(info[j - 1]) - Max(element.base + index, v.mark), 0) else 0
      {
        RecordAdds(info, v, chunks, hi, k, index, j);
        if found {
          count := count + info[j].removedCount;
        } else if info[j].element == element {
          found := true;
          if index < info[j].newHead {
            if index <= info[j].oldHead {
              count := count + info[j].removedCount;
            } else {
              count := count + info[j].newHead - index;
            }
          }
        }
      }
      RecordsEnd(info, v, chunks, hi, k, index);
    }

    /** Repairs the cursor: it then reads the first survivor at or after its old position. */
    method UpdatePositionAfterExpiration(newFirst: ChunkNode?, info: seq<RemovalInfo>, ghost pass: Pass)
      requires pass.Ok() && pass.newFirst == newFirst && pass.info == info
      requires Stands(pass.v0, pass.cs)
      modifies `chunkElement, `indexInChunk
      ensures Stands(pass.v, pass.chunks)
      ensures Pos(pass.v) == Max(old(Pos(pass.v0)), pass.v.mark)
    {
      if chunkElement == null {
        return;
      }
      for j := 0 to |info|
        invariant chunkElement == old(chunkElement) && indexInChunk == old(indexInChunk)
      {
        if info[j].element == chunkElement {
          assert InfoEnd(info[j]) <= InfoEnd(info[|info| - 1]) == pass.v.mark;
          if indexInChunk < info[j].newHead {
            indexInChunk := info[j].newHead;
          }
          break;
        }
      }
      if newFirst != null {
        if chunkElement.pooled {
          chunkElement, indexInChunk := newFirst, 0;
        }
      } else {
        chunkElement, indexInChunk := null, 0;
      }
    }

    /** What the manager does to each registered reader after an expiry pass. */
    method AfterExpiration(newFirst: ChunkNode?, info: seq<RemovalInfo>, ghost pass: Pass)
      requires pass.Ok() && pass.newFirst == newFirst && pass.info == info
      requires Tracks(pass.v0) && Stands(pass.v0, pass.cs)
      modifies `chunkElement, `indexInChunk, `spec
      ensures Tracks(pass.v) && Stands(pass.v, pass.chunks)
      ensures spec == old(spec).Expire(pass.v0, pass.v.mark)
    {
      var count := CalculateExpiredCount(chunkElement, indexInChunk, info, pass.v0, pass.cs, pass.v.mark);
      UpdatePositionAfterExpiration(newFirst, info, pass);
      spec := spec.(lost := spec.lost + count);
    }
  }
}
