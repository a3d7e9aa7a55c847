/** The queue: admission, expiry, readers and Close, refining `QueueSpec`. */
module QueueModel {
  import opened QueueTypes
  import opened LogView
  import opened Readers
  import Spec = QueueSpec
  import opened Memory
  import opened Chunk
  import opened Chunked
  import opened Cursors
  import opened Consumers

  /** Adds up the sizes of a batch in int64 and stops before the sum would wrap. */
  method BatchSize(items: seq<Item>) returns (total: int, overflow: bool)
    requires AllSized(items)
    ensures overflow <==> Bytes(items, 0) > MAX_INT64
    ensures !overflow ==> total == Bytes(items, 0)
  {
    total := 0;
    for i := 0 to |items|
      invariant 0 <= total <= MAX_INT64 && total + Bytes(items, i) == Bytes(items, 0)
    {
      BytesNonNegative(items, i + 1);
      if MAX_INT64 - total < items[i].size {
        return total, true;
      }
      total := Add64(total, items[i].size);
    }
    return total, false;
  }

  predicate IsEnqueue(op: Spec.Op) {
    op.TryEnqueue? || op.Enqueue? || op.TryEnqueueBatch? || op.EnqueueBatch?
  }

  predicate IsSetting(op: Spec.Op) {
    op.AddReader? || op.RemoveReader? || op.SetTTL? || op.SetExpiration?
  }

  predicate IsRead(op: Spec.Op) {
    op.Read? || op.ReadBatch? || op.ReadWhere? || op.MemoryUsage? || op.TotalItems?
  }

  class Queue {
    const tracker: MemoryTracker
    const list: ChunkedList
    const consumers: ConsumerManager
    const maxItems: int
    var ttl: int
    var expirationEnabled: bool
    var closed: bool
    var cleared: bool  // the one call of Close that gets past its guard has cleared the list
    ghost var grave: Option<Grave>  // what it left behind
    ghost var biggest: nat

    constructor (maxItems: int, maxMemory: int, ttl: int)
      requires maxMemory > 0 ==> FitsInt64(maxMemory)
      ensures Valid() && Abs() == Spec.Initial(maxItems, maxMemory, ttl)
      ensures fresh(tracker) && fresh(list) && fresh(consumers)
      ensures list.owned == {} && consumers.readers == map[]
    {
      var t := new MemoryTracker(maxMemory);
      tracker := t;
      list := new ChunkedList(t);
      consumers := new ConsumerManager();
      this.maxItems, this.ttl := maxItems, ttl;
      expirationEnabled := ttl > 0;
      closed := false;
      cleared, grave, biggest := false, None, 0;
    }

    /** The list and the flags, apart from the readers. */
    ghost predicate Stocked()
      reads this, list, tracker, list.owned
    {
      match grave
      case None => !cleared && list.tracker == tracker && FitsInt64(tracker.maxMemory) && list.Valid()
      case Some(_) =>
        && cleared && closed && list.tracker == tracker && FitsInt64(tracker.maxMemory) && list.Valid()
        && list.Buries(grave)
    }

    ghost predicate Valid()
      reads this, list, tracker, list.owned, consumers, consumers.readers.Values
    {
      Stocked() && consumers.Apart() && consumers.InPlace(list.view, list.chunks, grave)
    }

    /** The abstract state that the objects stand for. */
    ghost function Abs(): Spec.State
      reads this, list, tracker, consumers
    {
      Spec.State(list.view, consumers.specs, closed, cleared,
                 ttl, expirationEnabled, maxItems, tracker.maxMemory, biggest)
    }

    /** Appending moves no reader. */
    method GrowList(item: Item) returns (error: Option<Error>)
      requires Valid() && !closed && Sized(item)
      modifies list, tracker, list.owned
      ensures Valid() && old(list.owned) <= list.owned && fresh(list.owned - old(list.owned))
      ensures var v := old(list.view);
        if v.Memory() + item.size <= tracker.maxMemory then error == None && list.view == v.Append([item])
        else error == Some(MemoryLimit(v.Memory(), tracker.maxMemory, item.size)) && list.view == v
    {
      ghost var v, cs := list.view, list.chunks;
      error := list.Enqueue(item);
      consumers.SeatedGrows(v, cs, list.view, list.chunks);
    }

    /** The append under the queue lock that both single enqueues end in. */
    method StoreOne(item: Item) returns (error: Option<Error>)
      requires Valid() && !closed && Sized(item)
      modifies `biggest, list, tracker, list.owned
      ensures Valid() && old(list.owned) <= list.owned && fresh(list.owned - old(list.owned))
      ensures var s := old(Abs());
        if s.view.Memory() + item.size <= s.maxMemory then error == None && Abs() == s.Admit([item])
        else error == Some(MemoryLimit(s.view.Memory(), s.maxMemory, item.size)) && Abs() == s
    {
      if list.view.Memory() + item.size <= tracker.maxMemory {
        biggest := Max(biggest, 1);
      }
      error := GrowList(item);
    }

    method GrowByBatch(items: seq<Item>) returns (ok: bool)
      requires Valid() && !closed && AllSized(items)
      requires list.view.Memory() + Bytes(items, 0) <= tracker.maxMemory
      modifies list, tracker, list.owned
      ensures Valid() && old(list.owned) <= list.owned && fresh(list.owned - old(list.owned))
      ensures ok && list.view == old(list.view).Append(items)
    {
      ghost var v, cs := list.view, list.chunks;
      assert consumers.Seated(v, cs);
      ok := list.EnqueueBatch(items);
      consumers.SeatedGrows(v, cs, list.view, list.chunks);
    }

    method StoreBatch(items: seq<Item>) returns (ok: bool)
      requires Valid() && !closed && AllSized(items)
      requires list.view.Memory() + Bytes(items, 0) <= tracker.maxMemory
      modifies `biggest, list, tracker, list.owned
      ensures Valid() && old(list.owned) <= list.owned && fresh(list.owned - old(list.owned))
      ensures ok && Abs() == old(Abs()).Admit(items)
    {
      biggest := Max(biggest, |items|);
      ok := GrowByBatch(items);
    }

    method TryEnqueue(item: Item) returns (a: Admission)
      requires Valid() && Sized(item)
      modifies `biggest, list, tracker, list.owned
      ensures Valid() && old(list.owned) <= list.owned && fresh(list.owned - old(list.owned))
      ensures (Abs(), a) == old(Abs()).TryEnqueue(item)
    {
      if closed {
        return Rejected(QueueClosed);
      }
      if maxItems > 0 && list.totalItems >= maxItems {
        return Rejected(QueueFull(maxItems));
      }
      var error := StoreOne(item);
      return if error.Some? then Rejected(error.value) else Admitted;
    }

    /** One pass through the loop of the blocking Enqueue; Park waits for dequeueNotify. */
    method Enqueue(item: Item) returns (a: Admission)
      requires Valid() && Sized(item)
      modifies `biggest, list, tracker, list.owned
      ensures Valid() && old(list.owned) <= list.owned && fresh(list.owned - old(list.owned))
      ensures (Abs(), a) == old(Abs()).Enqueue(item)
    {
      list.Accounted();
      if closed {
        return Rejected(QueueClosed);
      }
      if item.size > tracker.maxMemory {
        return Rejected(MemoryLimit(tracker.totalMemory, tracker.maxMemory, item.size));
      }
      if maxItems > 0 && list.totalItems >= maxItems {
        return Park;
      }
      var error := StoreOne(item);
      match error
      case None => return Admitted;
      case Some(e) => return if e.MemoryLimit? && e.needed <= e.max then Park else Rejected(e);
    }

    method TryEnqueueBatch(items: seq<Item>) returns (a: Admission)
      requires Valid() && AllSized(items)
      modifies `biggest, list, tracker, list.owned
      ensures Valid() && old(list.owned) <= list.owned && fresh(list.owned - old(list.owned))
      ensures (Abs(), a) == old(Abs()).TryEnqueueBatch(items)
    {
      list.Accounted();
      if closed {
        return Rejected(QueueClosed);
      }
      if items == [] {
        return Admitted;
      }
      if maxItems > 0 && list.totalItems + |items| > maxItems {
        return Rejected(QueueFull(maxItems));
      }
      var total, overflow := BatchSize(items);
      if overflow {
        return Rejected(Overflow);
      }
      if total > tracker.maxMemory - tracker.totalMemory {
        return Rejected(MemoryLimit(tracker.totalMemory, tracker.maxMemory, total));
      }
      var ok := StoreBatch(items);
      return Admitted;
    }

    /** One pass through the loop of the blocking EnqueueBatch. */
    method EnqueueBatch(items: seq<Item>) returns (a: Admission)
      requires Valid() && AllSized(items)
      modifies `biggest, list, tracker, list.owned
      ensures Valid() && old(list.owned) <= list.owned && fresh(list.owned - old(list.owned))
      ensures (Abs(), a) == old(Abs()).EnqueueBatch(items)
    {
      list.Accounted();
      if closed {
        return Rejected(QueueClosed);
      }
      if items == [] {
        return Admitted;
      }
      var total, overflow := BatchSize(items);
      if overflow {
        return Rejected(Overflow);
      }
      if maxItems > 0 && |items| > maxItems {
        return Rejected(QueueFull(maxItems));
      }
      if maxItems > 0 && list.totalItems + |items| > maxItems {
        return Park;
      }
      if total > tracker.maxMemory {
        return Rejected(MemoryLimit(tracker.totalMemory, tracker.maxMemory, total));
      }
      if tracker.maxMemory - tracker.totalMemory >= total {
        var ok := StoreBatch(items);
        return Admitted;
      }
      return Park;
    }

    /** Runs the pass over the list; the readers still stand in the old one. */
    method Sweep(now: int) returns (count: int, newFirst: ChunkNode?, info: seq<RemovalInfo>, ghost pass: Pass)
      requires list.Valid() && list.tracker == tracker
      modifies list, tracker, list.InUse()
      ensures list.Valid() && list.owned == old(list.owned)
      ensures pass.Ok() && pass.newFirst == newFirst && pass.info == info
      ensures pass.v0 == old(list.view) && pass.cs == old(list.chunks)
      ensures pass.v == list.view && pass.chunks == list.chunks
      ensures list.view == pass.v0.Advance(Surviving(pass.v0.log, pass.v0.mark, now, ttl))
      ensures count == pass.v.mark - pass.v0.mark
      ensures count == 0 ==> pass.chunks == pass.cs && pass.v == pass.v0
    {
      ghost var v, cs := list.view, list.chunks;
      assert forall k :: 0 <= k < |cs| ==> cs[k].base == v.BaseOf(k);
      count, info := list.RemoveExpiredData(now, ttl);
      newFirst := if list.chunks == [] then null else list.chunks[0];
      pass := Pass(newFirst, info, v, cs, list.view, list.chunks);
    }

    /** The same within the queue: either nothing changed or the readers are to be told. */
    method SweepQueue(now: int) returns (count: int, newFirst: ChunkNode?, info: seq<RemovalInfo>, ghost pass: Pass)
      requires Valid()
      modifies list, tracker, list.owned
      ensures list.Valid() && list.owned == old(list.owned)
      ensures pass.Ok() && pass.newFirst == newFirst && pass.info == info
      ensures pass.v0 == old(list.view) && pass.v == list.view && pass.chunks == list.chunks
      ensures list.view == pass.v0.Advance(Surviving(pass.v0.log, pass.v0.mark, now, ttl))
      ensures count == pass.v.mark - pass.v0.mark
      ensures count == 0 ==> Valid() && pass.v == pass.v0
      ensures count > 0 ==> !cleared && grave.None? && consumers.Apart() && consumers.Seated(pass.v0, pass.cs)
    {
      count, newFirst, info, pass := Sweep(now);
    }

    /** Tells the readers about a pass that took something. */
    method Settle(newFirst: ChunkNode?, info: seq<RemovalInfo>, ghost pass: Pass)
      requires list.tracker == tracker && FitsInt64(tracker.maxMemory) && list.Valid()
      requires !cleared && grave.None?
      requires pass.Ok() && pass.newFirst == newFirst && pass.info == info
      requires pass.v == list.view && pass.chunks == list.chunks
      requires consumers.Apart() && consumers.Seated(pass.v0, pass.cs)
      modifies consumers`specs, consumers.readers.Values
      ensures Valid() && consumers.specs == Spec.ExpireAll(old(consumers.specs), pass.v0, pass.v.mark)
    {
      consumers.NotifyAllConsumersOfExpiration(newFirst, info, pass);
    }

    method CleanupExpiredItems(now: int) returns (count: int)
      requires Valid()
      modifies list, tracker, list.owned, consumers`specs, consumers.readers.Values
      ensures Valid() && list.owned == old(list.owned)
      ensures !expirationEnabled ==>
        list.view == old(list.view) && consumers.specs == old(consumers.specs) && count == 0
      ensures expirationEnabled ==>
        (list.view, consumers.specs, count) == Spec.ExpireOf(old(consumers.specs), old(list.view), now, ttl)
    {
      if !expirationEnabled {
        return 0;
      }
      var newFirst, info;
      ghost var pass;
      count, newFirst, info, pass := SweepQueue(now);
      if count > 0 {
        Settle(newFirst, info, pass);
      }
    }

    method AddReader(key: Key)
      requires Valid()
      modifies consumers
      ensures Valid() && fresh(consumers.readers.Values - old(consumers.readers.Values))
      ensures var specs := old(consumers.specs);
        consumers.specs == if key in specs then specs else specs[key := NewReader(list.view)]
    {
      consumers.Add(key, list, grave);
    }

    method RemoveReader(key: Key)
      requires Valid()
      modifies consumers
      ensures Valid() && consumers.readers.Values <= old(consumers.readers.Values)
      ensures consumers.specs == old(consumers.specs) - {key}
    {
      consumers.Remove(key, list, grave);
    }

    method TryReadBatch(key: Key, limit: int) returns (items: seq<Item>)
      requires Valid()
      modifies consumers`specs, consumers.readers.Values
      ensures Valid()
      ensures (consumers.specs, items) == Spec.BatchOf(old(consumers.specs), list.view, closed, key, limit)
    {
      items := consumers.TryReadBatch(list, closed, key, limit, grave);
    }

    method TryReadWhere(key: Key, want: Item -> bool) returns (item: Option<Item>, error: Option<Error>)
      requires Valid()
      modifies consumers`specs, consumers.readers.Values
      ensures Valid()
      ensures (consumers.specs, item, error) == Spec.WhereOf(old(consumers.specs), list.view, closed, key, want)
    {
      item, error := consumers.TryReadWhere(list, closed, key, want, grave);
    }

    /** The reader was registered between the two halves of Close, so it is still open, and
        its cursor has not left its dead chunk. */
    ghost predicate Stranded(key: Key)
      reads this, consumers, consumers.readers.Values
    {
      && grave.Some? && key in consumers.readers
      && !consumers.readers[key].Blocked(closed) && consumers.readers[key].chunkElement != null
    }

    /** What `key` is told to be unread: if it is stranded, what Close dropped of its items. */
    ghost function Visible(key: Key): int
      reads this, list, tracker, list.owned, consumers, consumers.readers.Values
      requires Valid()
    {
      if Spec.Blocked(consumers.specs, closed, key) then 0
      else if Stranded(key) then consumers.specs[key].dropped
      else consumers.specs[key].Unread(list.view)
    }

    method HasMoreData(key: Key) returns (more: bool)
      requires Valid()
      ensures more <==> Visible(key) > 0
    {
      if key !in consumers.readers {
        return false;
      }
      more := consumers.readers[key].HasMoreData(list, closed, grave);
    }

    method GetUnreadCount(key: Key) returns (count: int)
      requires Valid()
      ensures count == Visible(key)
    {
      if key !in consumers.readers {
        return 0;
      }
      count := consumers.readers[key].GetUnreadCount(list, closed, grave);
    }

    lemma AbsReachable()
      requires Valid()
      ensures Spec.Reachable(Abs())
    {
      forall k | k in consumers.specs
        ensures consumers.specs[k].offset <= |list.view.log|
      {
        assert consumers.readers[k].Tracks(list.view);
      }
    }

    /** First half of Close: the flag, then the consumers. */
    method CloseFlag()
      requires Valid()
      modifies `closed, consumers`specs, consumers.readers.Values
      ensures Valid() && Abs() == old(Abs()).Shut()
    {
      if closed {
        return;
      }
      closed := true;
      consumers.CloseAll(list.view, list.chunks);
    }

    /** Clears the list; the readers keep their places, which were in the old one. */
    method ClearList(ghost s: Spec.State, ghost cs: seq<ChunkNode>)
      requires Valid() && !cleared && s == Abs() && cs == list.chunks
      modifies list, tracker, list.owned`data, list.owned`pooled
      ensures list.Valid() && list.chunks == [] && list.owned == old(list.owned)
      ensures list.view == s.view.Advance(|s.view.log|) && Grave(cs, s.view).Laid(list.owned)
    {
      list.ListIsChain();
      list.Clear();
    }

    /** Books what the readers have lost by it. */
    ghost method BookLosses(s: Spec.State, cs: seq<ChunkNode>)
      requires closed && cleared && list.tracker == tracker && FitsInt64(tracker.maxMemory)
      requires list.Valid() && list.chunks == [] && s.view.Ok() && list.view == s.view.Advance(|s.view.log|)
      requires consumers.Apart() && consumers.Seated(s.view, cs)
      requires Grave(cs, s.view).Laid(list.owned)
      modifies `grave, consumers`specs, consumers.readers.Values`spec
      ensures Valid() && consumers.specs == Spec.DropAll(old(consumers.specs), s.view)
    {
      grave := Some(Grave(cs, s.view));
      consumers.DropAll(s.view, cs);
    }

    method ClearNow()
      requires Valid() && closed && !cleared
      modifies `cleared, `grave, list, tracker, list.owned`data, list.owned`pooled
      modifies consumers`specs, consumers.readers.Values`spec
      ensures Valid() && cleared && list.owned == old(list.owned)
      ensures list.view == old(list.view).Advance(|old(list.view).log|)
      ensures consumers.specs == Spec.DropAll(old(consumers.specs), old(list.view))
    {
      ghost var s, cs := Abs(), list.chunks;
      assert consumers.Seated(s.view, cs);
      ClearList(s, cs);
      cleared := true;
      BookLosses(s, cs);
    }

    /** Second half of Close: the list is cleared under the queue lock. */
    method CloseClear()
      requires Valid()
      modifies `cleared, `grave, list, tracker, list.owned`data, list.owned`pooled
      modifies consumers`specs, consumers.readers.Values`spec
      ensures Valid() && list.owned == old(list.owned)
      ensures Abs() == old(Abs()).Clear()
    {
      if closed && !cleared {
        ClearNow();
      }
    }

    ghost function Repr(): set<object>
      reads this, list, consumers
    {
      {this, list, tracker, consumers} + list.owned + consumers.readers.Values
    }

    method ApplyEnqueue(op: Spec.Op) returns (out: Spec.Output)
      requires Valid() && Spec.Legal(op)
      requires IsEnqueue(op)
      modifies `biggest, list, tracker, list.owned
      ensures Valid() && old(list.owned) <= list.owned && fresh(list.owned - old(list.owned))
      ensures Spec.Reachable(old(Abs())) && (Abs(), out) == Spec.Step(old(Abs()), op)
    {
      AbsReachable();
      var a;
      match op {
        case TryEnqueue(item) => a := TryEnqueue(item);
        case Enqueue(item) => a := Enqueue(item);
        case TryEnqueueBatch(items) => a := TryEnqueueBatch(items);
        case EnqueueBatch(items) => a := EnqueueBatch(items);
      }
      out := Spec.Enqueued(a);
    }

    method ApplyRead(op: Spec.Op) returns (out: Spec.Output)
      requires Valid() && IsRead(op)
      modifies consumers`specs, consumers.readers.Values
      ensures Valid() && Spec.Reachable(old(Abs())) && (Abs(), out) == Spec.Step(old(Abs()), op)
    {
      AbsReachable();
      match op
      case Read(key) =>
        var items := TryReadBatch(key, 1);
        out := Spec.Items(items);
      case ReadBatch(key, limit) =>
        var items := TryReadBatch(key, limit);
        out := Spec.Items(items);
      case ReadWhere(key, want) =>
        var item, error := TryReadWhere(key, want);
        out := Spec.Found(item, error);
      case MemoryUsage =>
        list.Accounted();
        out := Spec.Number(tracker.totalMemory);
      case TotalItems =>
        out := Spec.Number(list.totalItems);
    }

    method ApplySetting(op: Spec.Op) returns (out: Spec.Output)
      requires Valid() && IsSetting(op)
      modifies `ttl, `expirationEnabled, consumers
      ensures Valid() && fresh(consumers.readers.Values - old(consumers.readers.Values))
      ensures Spec.Reachable(old(Abs())) && (Abs(), out) == Spec.Step(old(Abs()), op)
    {
      AbsReachable();
      match op
      case AddReader(key) =>
        AddReader(key);
        out := Spec.Done;
      case RemoveReader(key) =>
        RemoveReader(key);
        out := Spec.Done;
      case SetTTL(t) =>
        ttl := t;
        out := Spec.Done;
      case SetExpiration(on) =>
        expirationEnabled := on;
        out := Spec.Done;
    }

    method ApplyOther(op: Spec.Op) returns (out: Spec.Output)
      requires Valid() && !IsEnqueue(op) && !IsRead(op) && !IsSetting(op)
      modifies `closed, `cleared, `grave, list, tracker, list.owned, consumers`specs, consumers.readers.Values
      ensures Valid() && list.owned == old(list.owned)
      ensures Spec.Reachable(old(Abs())) && (Abs(), out) == Spec.Step(old(Abs()), op)
    {
      AbsReachable();
      match op
      case Expire(now) =>
        var n := CleanupExpiredItems(now);
        out := Spec.Removed(n);
      case CloseFlag =>
        CloseFlag();
        out := Spec.Done;
      case CloseClear =>
        CloseClear();
        out := Spec.Done;
    }

    /** Any one operation does to the objects what the specification does to the log. */
    method Apply(op: Spec.Op) returns (out: Spec.Output)
      requires Valid() && Spec.Legal(op)
      modifies Repr()
      ensures Valid() && fresh(Repr() - old(Repr()))
      ensures Spec.Reachable(old(Abs())) && (Abs(), out) == Spec.Step(old(Abs()), op)
    {
      if IsEnqueue(op) {
        out := ApplyEnqueue(op);
      } else if IsRead(op) {
        out := ApplyRead(op);
      } else if IsSetting(op) {
        out := ApplySetting(op);
      } else {
        out := ApplyOther(op);
      }
    }

    /** The last operation of a run that starts in `s`. */
    method ApplyLast(ghost s: Spec.State, ops: seq<Spec.Op>, n: nat, before: seq<Spec.Output>)
      returns (outs: seq<Spec.Output>)
      requires Valid() && Spec.Reachable(s) && Spec.AllLegal(ops) && n == |ops| - 1
      requires (Abs(), before) == Spec.Run(s, ops[..n])
      modifies Repr()
      ensures Valid() && fresh(Repr() - old(Repr()))
      ensures (Abs(), outs) == Spec.Run(s, ops)
    {
      var out := Apply(ops[n]);
      outs := before + [out];
    }

    /** A whole run that starts in `s`. */
    method ApplyAll(ghost s: Spec.State, ops: seq<Spec.Op>) returns (outs: seq<Spec.Output>)
      requires Valid() && Spec.Reachable(s) && Spec.AllLegal(ops) && Abs() == s
      modifies Repr()
      ensures Valid() && fresh(Repr() - old(Repr()))
      ensures (Abs(), outs) == Spec.Run(s, ops)
      decreases |ops|
    {
      if ops == [] {
        return [];
      }
      var n := |ops| - 1;
      outs := ApplyAll(s, ops[..n]);
      outs := ApplyLast(s, ops, n, outs);
    }
  }

  /**
   Refinement over whole runs: for every configuration and every sequence of operations,
   the queue of chunks and pointer cursors produces exactly the outputs of the log.
   */
  method RunQueue(maxItems: int, maxMemory: int, ttl: int, ops: seq<Spec.Op>) returns (outs: seq<Spec.Output>)
    requires maxMemory > 0 ==> FitsInt64(maxMemory)
    requires Spec.AllLegal(ops)
    ensures outs == Spec.Run(Spec.Initial(maxItems, maxMemory, ttl), ops).1
  {
    var q := new Queue(maxItems, maxMemory, ttl);
    outs := q.ApplyAll(q.Abs(), ops);
  }
}
