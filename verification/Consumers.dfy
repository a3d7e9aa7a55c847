/** The registry of readers: independent consumers and consumer groups. */
module Consumers {
  import opened QueueTypes
  import opened LogView
  import opened Readers
  import Spec = QueueSpec
  import opened Chunk
  import opened Chunked
  import opened Cursors

  class ConsumerManager {
    var readers: map<Key, Cursor>
    ghost var specs: map<Key, Reader>  // what each of them has done so far

    constructor ()
      ensures readers == map[] && specs == map[]
    {
      readers := map[];
      specs := map[];
    }

    /** Every reader carries its own key, so no two keys share one. */
    ghost predicate Apart()
      reads this, readers.Values
    {
      && specs.Keys == readers.Keys
      && forall k :: k in readers ==> readers[k].key == k && readers[k].spec == specs[k]
    }

    /** The same, except that after Clear a cursor may be left in a chunk that is gone. */
    ghost predicate InPlace(v: View, chunks: seq<ChunkNode>, grave: Option<Grave>)
      reads `readers, readers.Values
    {
      forall k :: k in readers ==> readers[k].Placed(v, chunks, grave)
    }

    /** Every reader stands in the list and reads on from its offset. */
    ghost predicate Seated(v: View, chunks: seq<ChunkNode>)
      reads `readers, readers.Values
    {
      InPlace(v, chunks, None)
    }

    lemma SeatedGrows(v: View, cs: seq<ChunkNode>, v': View, cs': seq<ChunkNode>)
      requires Seated(v, cs) && cs <= cs' && v.log <= v'.log && v'.mark == v.mark
      ensures Seated(v', cs')
    {
    }

    /** The readers in `todo` have yet to be told about the pass, the others have been. */
    ghost predicate Told(todo: set<Key>, pass: Pass)
      reads this, readers.Values
    {
      && specs.Keys == readers.Keys
      && forall k :: k in readers ==>
           var c := readers[k];
           && c.key == k
           && if k in todo then
                c.Placed(pass.v0, pass.cs, None) && c.spec == specs[k]
              else
                && c.Placed(pass.v, pass.chunks, None)
                && c.spec == specs[k].Expire(pass.v0, pass.v.mark)
    }

    method Tell(key: Key, newFirst: ChunkNode?, info: seq<RemovalInfo>, ghost pass: Pass, ghost todo: set<Key>)
      requires key in readers && key in todo
      requires pass.Ok() && pass.newFirst == newFirst && pass.info == info
      requires Told(todo, pass)
      modifies readers[key]
      ensures Told(todo - {key}, pass)
    {
      readers[key].AfterExpiration(newFirst, info, pass);
    }

    method TellAll(newFirst: ChunkNode?, info: seq<RemovalInfo>, ghost pass: Pass)
      requires pass.Ok() && pass.newFirst == newFirst && pass.info == info
      requires Told(readers.Keys, pass)
      modifies readers.Values
      ensures Told({}, pass)
    {
      var todo := readers.Keys;
      while todo != {}
        invariant todo <= readers.Keys
        invariant Told(todo, pass)
        decreases |todo|
      {
        var key :| key in todo;
        Tell(key, newFirst, info, pass, todo);
        todo := todo - {key};
      }
    }

    method NotifyAllConsumersOfExpiration(newFirst: ChunkNode?, info: seq<RemovalInfo>, ghost pass: Pass)
      requires Apart() && Seated(pass.v0, pass.cs)
      requires pass.Ok() && pass.newFirst == newFirst && pass.info == info
      modifies `specs, readers.Values
      ensures Apart() && Seated(pass.v, pass.chunks)
      ensures specs == Spec.ExpireAll(old(specs), pass.v0, pass.v.mark)
    {
      TellAll(newFirst, info, pass);
      assert Seated(pass.v, pass.chunks);
      specs := Spec.ExpireAll(specs, pass.v0, pass.v.mark);
    }

    /** AddConsumer starts at the first chunk, AddGroup without a position. */
    method Add(key: Key, list: ChunkedList, ghost grave: Option<Grave>)
      requires list.Valid() && list.Buries(grave) && Apart() && InPlace(list.view, list.chunks, grave)
      modifies this
      ensures Apart() && InPlace(list.view, list.chunks, grave) && fresh(readers.Values - old(readers.Values))
      ensures specs == if key in old(specs) then old(specs) else old(specs)[key := NewReader(list.view)]
      ensures key.Independent? && key !in old(readers) && list.chunks != [] ==>
        readers[key].chunkElement == list.chunks[0]
    {
      if key in readers {
        return;
      }
      var first: ChunkNode? := if key.Group? || list.chunks == [] then null else list.chunks[0];
      var c := new Cursor(key, first, list.view, list.chunks);
      readers := readers[key := c];
      specs := specs[key := NewReader(list.view)];
    }

    method Remove(key: Key, list: ChunkedList, ghost grave: Option<Grave>)
      requires Apart() && InPlace(list.view, list.chunks, grave)
      modifies this
      ensures Apart() && InPlace(list.view, list.chunks, grave) && readers.Values <= old(readers.Values)
      ensures specs == old(specs) - {key}
    {
      readers := readers - {key};
      specs := specs - {key};
    }

    /** Apart, except that the reader of `key` has moved on. */
    ghost predicate ApartBut(key: Key)
      reads this, readers.Values
    {
      && specs.Keys == readers.Keys
      && forall k :: k in readers ==> readers[k].key == k && (k != key ==> readers[k].spec == specs[k])
    }

    ghost method Record(key: Key)
      requires key in readers && ApartBut(key)
      modifies `specs
      ensures Apart() && specs == old(specs)[key := readers[key].spec]
      ensures readers[key].spec == old(specs)[key] ==> specs == old(specs)
    {
      specs := specs[key := readers[key].spec];
    }

    method BatchFrom(list: ChunkedList, queueClosed: bool, key: Key, limit: int, ghost grave: Option<Grave>)
      returns (items: seq<Item>)
      requires list.Valid() && list.Buries(grave) && Apart() && InPlace(list.view, list.chunks, grave)
      requires key in readers
      modifies `specs, readers[key]
      ensures Apart() && InPlace(list.view, list.chunks, grave)
      ensures (specs, items) == Spec.BatchOf(old(specs), list.view, queueClosed, key, limit)
    {
      ghost var v, cs := list.view, list.chunks;
      readers[key].PlacedIsOn(list, grave);
      items := readers[key].TryReadBatch(list, queueClosed, limit);
      forall k | k in readers
        ensures readers[k].Placed(v, cs, grave)
      {
        assert k != key ==> readers[k].key != readers[key].key;
      }
      Record(key);
    }

    method TryReadBatch(list: ChunkedList, queueClosed: bool, key: Key, limit: int, ghost grave: Option<Grave>)
      returns (items: seq<Item>)
      requires list.Valid() && list.Buries(grave) && Apart() && InPlace(list.view, list.chunks, grave)
      modifies `specs, readers.Values
      ensures Apart() && InPlace(list.view, list.chunks, grave)
      ensures (specs, items) == Spec.BatchOf(old(specs), list.view, queueClosed, key, limit)
    {
      if key !in readers {
        return [];
      }
      items := BatchFrom(list, queueClosed, key, limit, grave);
    }

    method WhereFrom(list: ChunkedList, queueClosed: bool, key: Key, want: Item -> bool, ghost grave: Option<Grave>)
      returns (item: Option<Item>, error: Option<Error>)
      requires list.Valid() && list.Buries(grave) && Apart() && InPlace(list.view, list.chunks, grave)
      requires key in readers
      modifies `specs, readers[key]
      ensures Apart() && InPlace(list.view, list.chunks, grave)
      ensures (specs, item, error) == Spec.WhereOf(old(specs), list.view, queueClosed, key, want)
    {
      ghost var v, cs := list.view, list.chunks;
      readers[key].PlacedIsOn(list, grave);
      item, error := readers[key].TryReadWhere(list, queueClosed, want);
      assert readers[key].Placed(v, cs, grave);
      forall k | k in readers
        ensures readers[k].Placed(v, cs, grave)
      {
        assert k != key ==> readers[k].key != readers[key].key;
      }
      Record(key);
    }

    method TryReadWhere(list: ChunkedList, queueClosed: bool, key: Key, want: Item -> bool, ghost grave: Option<Grave>)
      returns (item: Option<Item>, error: Option<Error>)
      requires list.Valid() && list.Buries(grave) && Apart() && InPlace(list.view, list.chunks, grave)
      modifies `specs, readers.Values
      ensures Apart() && InPlace(list.view, list.chunks, grave)
      ensures (specs, item, error) == Spec.WhereOf(old(specs), list.view, queueClosed, key, want)
    {
      if key !in readers {
        return None, if key.Group? then Some(FilterNotSupported) else None;
      }
      item, error := WhereFrom(list, queueClosed, key, want, grave);
    }

    /** The consumers in `todo` have yet to be closed. */
    ghost predicate Closing(todo: set<Key>, v: View, chunks: seq<ChunkNode>)
      reads this, readers.Values
    {
      && specs.Keys == readers.Keys && Seated(v, chunks)
      && forall k :: k in readers ==>
           && readers[k].key == k
           && readers[k].spec == if k.Independent? && k !in todo then specs[k].(closed := true) else specs[k]
    }

    method CloseOne(key: Key, ghost todo: set<Key>, ghost v: View, ghost chunks: seq<ChunkNode>)
      requires key in readers && key in todo && Closing(todo, v, chunks)
      modifies readers[key]
      ensures Closing(todo - {key}, v, chunks)
    {
      if key.Independent? {
        readers[key].Close();
      }
    }

    method CloseEach(ghost v: View, ghost chunks: seq<ChunkNode>)
      requires Closing(readers.Keys, v, chunks)
      modifies readers.Values
      ensures Closing({}, v, chunks)
    {
      var todo := readers.Keys;
      while todo != {}
        invariant todo <= readers.Keys
        invariant Closing(todo, v, chunks)
        decreases |todo|
      {
        var key :| key in todo;
        CloseOne(key, todo, v, chunks);
        todo := todo - {key};
      }
    }

    /** Queue.Close closes the independent consumers; groups look at the queue's own flag. */
    method CloseAll(ghost v: View, ghost chunks: seq<ChunkNode>)
      requires Apart() && Seated(v, chunks)
      modifies `specs, readers.Values
      ensures Apart() && Seated(v, chunks) && specs == Spec.CloseAll(old(specs))
    {
      CloseEach(v, chunks);
      specs := Spec.CloseAll(specs);
    }

    ghost method DropEach(v: View)
      requires Apart()
      modifies readers.Values`spec
      ensures forall k :: k in readers ==> readers[k].spec == specs[k].Drop(v)
    {
      forall k | k in readers {
        readers[k].spec := readers[k].spec.Drop(v);
      }
    }

    /** Books the unread items that Clear throws away; the cursors stay where they were. */
    ghost method DropAll(v: View, cs: seq<ChunkNode>)
      requires Apart() && Seated(v, cs) && v.Ok()
      modifies `specs, readers.Values`spec
      ensures Apart() && InPlace(v.Advance(|v.log|), [], Some(Grave(cs, v)))
      ensures specs == Spec.DropAll(old(specs), v)
    {
      DropEach(v);
      specs := Spec.DropAll(specs, v);
      ghost var w := v.Advance(|v.log|);
      forall k | k in readers
        ensures readers[k].Placed(w, [], Some(Grave(cs, v)))
      {
        assert old(readers[k].Placed(v, cs, None));
        readers[k].Buried(v, cs, old(readers[k].spec));
      }
    }
  }
}
