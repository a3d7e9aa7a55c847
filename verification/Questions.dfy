/** The three questions a reader can ask: is there more, how much, and what is next. */
module Questions {
  import opened QueueTypes
  import opened LogView
  import opened Readers
  import opened QueueModel
  import Theorems = AdmissionTheorems

  /** The three answers agree except for a stranded reader from which Close took something. */
  method AskAll(q: Queue, key: Key) returns (more: bool, count: int, items: seq<Item>)
    requires q.Valid()
    modifies q.consumers`specs, q.consumers.readers.Values
    ensures q.Valid() && (more <==> count > 0)
    ensures (more <==> items != []) <==> !old(q.Stranded(key) && q.consumers.specs[key].dropped > 0)
    ensures old(q.Stranded(key)) ==> items == [] && count == old(q.consumers.specs[key].dropped)
  {
    q.AbsReachable();
    ghost var s := q.Abs();
    more := q.HasMoreData(key);
    count := q.GetUnreadCount(key);
    items := q.TryReadBatch(key, 1);
    Theorems.ReadYieldsIff(s, key);
  }

  /** What a reader is told to be unread is what it can read: asked for one more than that, a batch
      gives exactly as many, unless the reader is stranded. */
  method ReadRest(q: Queue, key: Key) returns (count: int, items: seq<Item>)
    requires q.Valid()
    modifies q.consumers`specs, q.consumers.readers.Values
    ensures q.Valid() && (!old(q.Stranded(key)) ==> |items| == count)
  {
    q.AbsReachable();
    ghost var s := q.Abs();
    count := q.GetUnreadCount(key);
    items := q.TryReadBatch(key, count + 1);
    if !old(q.Stranded(key)) {
      Theorems.RestIsUnread(s, key, count);
    }
  }

  /** An open reader with a position is stranded by the second half of Close. */
  method ClearUnder(q: Queue, key: Key, ghost r: Reader)
    requires q.Valid() && q.closed && !q.cleared && key in q.consumers.readers && r == q.consumers.specs[key]
    requires !q.consumers.readers[key].Blocked(true) && q.consumers.readers[key].chunkElement != null
    modifies q`cleared, q`grave, q.list, q.tracker, q.list.owned`data, q.list.owned`pooled
    modifies q.consumers`specs, q.consumers.readers.Values`spec
    ensures q.Valid() && q.Stranded(key) && q.consumers.specs[key] == r.Drop(old(q.list.view))
  {
    q.ClearNow();
  }

  /** It is told afterwards exactly of the unread items that it lost, and gets none of them. */
  method ClearAndAsk(q: Queue, key: Key) returns (more: bool, count: int, items: seq<Item>)
    requires q.Valid() && q.closed && !q.cleared && key in q.consumers.readers
    requires !q.consumers.readers[key].Blocked(true) && q.consumers.readers[key].chunkElement != null
    modifies q`cleared, q`grave, q.list, q.tracker, q.list.owned, q.consumers`specs, q.consumers.readers.Values
    ensures items == [] && count == old(q.consumers.specs[key].Unread(q.list.view)) && (more <==> count > 0)
  {
    assert q.consumers.readers[key].Placed(q.list.view, q.list.chunks, q.grave);
    ClearUnder(q, key, q.consumers.specs[key]);
    more, count, items := AskAll(q, key);
  }

  /** A queue with one item, after the first half of Close. */
  method HalfClosed(x: Item) returns (q: Queue)
    requires Sized(x) && x.size <= DEFAULT_MAX_MEMORY
    ensures q.Valid() && q.closed && !q.cleared
    ensures fresh(q) && fresh(q.list) && fresh(q.tracker) && fresh(q.list.owned) && fresh(q.consumers)
    ensures q.list.view == View([x], 0, 0) && q.list.chunks != [] && q.consumers.readers == map[]
  {
    q := new Queue(0, 0, 0);
    var a := q.TryEnqueue(x);
    assert q.list.view == View([x], 0, 0);
    q.CloseFlag();
  }

  /** A consumer then registers. */
  method Latecomer(x: Item, key: Key) returns (q: Queue)
    requires Sized(x) && x.size <= DEFAULT_MAX_MEMORY && key.Independent?
    ensures q.Valid() && q.closed && !q.cleared && key in q.consumers.readers
    ensures fresh(q) && fresh(q.list) && fresh(q.tracker) && fresh(q.list.owned) && fresh(q.consumers)
    ensures fresh(q.consumers.readers.Values) && q.consumers.readers[key].chunkElement != null
    ensures q.consumers.specs[key] == NewReader(q.list.view) && q.list.view == View([x], 0, 0)
  {
    q := HalfClosed(x);
    q.consumers.Add(key, q.list, q.grave);
  }

  /**
   The three answers do disagree: an item is stored, Close sets its flag, a consumer
   registers, and Close clears the list. The consumer is told of one unread item and gets none.
   */
  method StrandedConsumer(x: Item) returns (more: bool, count: int, items: seq<Item>)
    requires Sized(x) && x.size <= DEFAULT_MAX_MEMORY
    ensures more && count == 1 && items == []
  {
    var key := Independent(1);
    var q := Latecomer(x, key);
    more, count, items := ClearAndAsk(q, key);
  }
}
