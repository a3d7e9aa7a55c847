/** Memory bounds, blocking producers, batches and Close, over every run. */
module AdmissionTheorems {
  import opened QueueTypes
  import opened LogView
  import opened Readers
  import opened QueueSpec

  // ---------- the real memory bound ----------

  function ChunksFor(n: nat): nat { (n + CHUNK_SIZE - 1) / CHUNK_SIZE }

  /**
   The items alone stay within the limit; chunk overhead can exceed it by the chunks of
   the largest admitted batch, whose size the limit bounds in turn.
   */
  ghost predicate MemoryBounded(s: State) {
    && s.view.Ok()
    && 0 < s.maxMemory
    && Bytes(s.view.log, s.view.mark) <= s.maxMemory
    && s.view.Memory() <= s.maxMemory + CHUNK_NODE_SIZE * ChunksFor(s.biggest)
    && MIN_ITEM_SIZE * s.biggest <= s.maxMemory
  }

  lemma AdmitBounded(s: State, items: seq<Item>)
    requires MemoryBounded(s) && AllSized(items) && items != []
    requires s.view.Memory() + Bytes(items, 0) <= s.maxMemory
    requires s.Admit(items).view.Ok()
    ensures MemoryBounded(s.Admit(items))
  {
    BytesConcat(s.view.log, items, s.view.mark);
    BytesNonNegative(s.view.log, s.view.mark);
    BytesNonNegative(items, 0);
    ChunksGrow(s.view, items);
  }

  /** Raising the mark frees bytes and chunks. */
  lemma AdvanceFrees(v: View, q: nat)
    requires v.Ok() && v.mark <= q <= |v.log|
    ensures v.Advance(q).Ok()
    ensures Bytes(v.log, q) <= Bytes(v.log, v.mark)
    ensures v.Advance(q).Memory() <= v.Memory()
  {
    AdvanceOk(v, q);
    BytesShrink(v.log, v.mark, q);
    assert v.Advance(q).Chunks() <= v.Chunks();
  }

  lemma OneItem(item: Item)
    ensures Bytes([item], 0) == item.size
  {
    assert Bytes([item], 1) == 0;
  }

  lemma StepBounded(s: State, op: Op)
    requires Reachable(s) && Legal(op) && MemoryBounded(s)
    ensures MemoryBounded(Step(s, op).0)
  {
    StepReachable(s, op);
    match op
    case TryEnqueue(item) =>
      OneItem(item);
      if Step(s, op).0 != s { AdmitBounded(s, [item]); }
    case Enqueue(item) =>
      OneItem(item);
      if Step(s, op).0 != s { AdmitBounded(s, [item]); }
    case TryEnqueueBatch(items) =>
      if Step(s, op).0 != s { AdmitBounded(s, items); }
    case EnqueueBatch(items) =>
      if Step(s, op).0 != s { AdmitBounded(s, items); }
    case Expire(now) =>
      AdvanceFrees(s.view, Surviving(s.view.log, s.view.mark, now, s.ttl));
    case CloseClear =>
      AdvanceFrees(s.view, |s.view.log|);
    case _ =>
  }

  /** The memory bound holds after every history. */
  lemma {:induction false} RunBounded(maxItems: int, maxMemory: int, ttl: int, ops: seq<Op>)
    requires AllLegal(ops)
    ensures MemoryBounded(Run(Initial(maxItems, maxMemory, ttl), ops).0)
    decreases |ops|
  {
    if ops != [] {
      var n := |ops| - 1;
      RunBounded(maxItems, maxMemory, ttl, ops[..n]);
      StepBounded(Run(Initial(maxItems, maxMemory, ttl), ops[..n]).0, ops[n]);
    }
  }

  // ---------- Close is final ----------

  lemma StepAfterClear(s: State, op: Op)
    requires Reachable(s) && s.cleared && Legal(op)
    ensures Step(s, op).0.closed && Step(s, op).0.cleared && Step(s, op).0.view == s.view
  {
  }

  /** Once the list has been cleared, no interleaving of operations brings anything back. */
  lemma {:induction false} CloseIsFinal(s: State, ops: seq<Op>)
    requires Reachable(s) && s.cleared && AllLegal(ops)
    ensures var t := Run(s, ops).0;
      && t.closed && t.cleared && t.view.log == s.view.log
      && t.Count() == 0 && t.view.Chunks() == 0 && t.view.Memory() == 0
    decreases |ops|
  {
    if ops != [] {
      var n := |ops| - 1;
      CloseIsFinal(s, ops[..n]);
      StepAfterClear(Run(s, ops[..n]).0, ops[n]);
    }
  }

  // ---------- blocked producers ----------

  /** Whatever waits, waits for items that are there to expire. */
  lemma ParkedMeansOccupied(s: State, item: Item, items: seq<Item>)
    requires Reachable(s) && Sized(item) && AllSized(items)
    ensures s.Enqueue(item).1 == Park ==> s.Count() > 0
    ensures s.EnqueueBatch(items).1 == Park ==> s.Count() > 0
  {
    if s.Count() == 0 {
      assert s.view.Memory() == 0;
    }
  }

  /** Same limits, nothing stored, still open. */
  ghost predicate EmptiedFrom(t: State, s: State) {
    && Reachable(t) && t.Count() == 0 && !t.closed
    && t.maxItems == s.maxItems && t.maxMemory == s.maxMemory
  }

  /** A parked single enqueue is admitted as soon as the queue is empty. */
  lemma ParkedEnqueueFitsEmpty(s: State, item: Item, t: State)
    requires Reachable(s) && Sized(item) && s.Enqueue(item).1 == Park && EmptiedFrom(t, s)
    ensures t.Enqueue(item).1 == Admitted
  {
    assert t.view.Memory() == 0;
  }

  /**
   A parked batch is admitted on the empty queue exactly when its bytes fit the limit: the
   item limit parks a batch before its size is compared with maxMemory.
   */
  lemma ParkedBatchFitsEmpty(s: State, items: seq<Item>, t: State)
    requires Reachable(s) && AllSized(items) && s.EnqueueBatch(items).1 == Park && EmptiedFrom(t, s)
    ensures t.EnqueueBatch(items).1 == Admitted <==> Bytes(items, 0) <= s.maxMemory
    ensures t.EnqueueBatch(items).1 != Park
  {
    assert t.view.Memory() == 0;
  }

  lemma TwoStored(a: Item, b: Item)
    requires a.size == b.size == 200
    ensures
      var s := Run(Initial(2, 200_000, 1), [TryEnqueue(a), TryEnqueue(b)]).0;
      s == Initial(2, 200_000, 1).(view := View([a, b], 0, 0), biggest := 1)
  {
    var ops: seq<Op> := [TryEnqueue(a), TryEnqueue(b)];
    var s0 := Initial(2, 200_000, 1);
    assert ops[..1] == [TryEnqueue(a)] && ops[..1][..0] == [];
    OneItem(a);
    assert Run(s0, ops[..0]).0 == s0 && s0.view.Memory() == 0;
    var s1 := Run(s0, ops[..1]).0;
    assert s1.view.log == [a] && s1.view.Memory() == 200 + CHUNK_NODE_SIZE;
    assert Run(s0, ops).0.view.log == [a, b];
  }

  /** A run after which a batch parks that no empty queue would take. */
  lemma HopelessBatchParks()
    ensures exists ops: seq<Op>, items: seq<Item> ::
      AllLegal(ops) && AllSized(items)
      && var s := Run(Initial(2, 200_000, 1), ops).0;
      s.EnqueueBatch(items).1 == Park
      && s.(view := s.view.Advance(|s.view.log|)).EnqueueBatch(items).1.Rejected?
  {
    var a, b, big := Item(1, 0, 200), Item(2, 0, 200), Item(3, 0, 300_000);
    var ops: seq<Op> := [TryEnqueue(a), TryEnqueue(b)];
    TwoStored(a, b);
    OneItem(big);
    var s := Run(Initial(2, 200_000, 1), ops).0;
    assert s.EnqueueBatch([big]).1 == Park;
    assert s.(view := s.view.Advance(2)).EnqueueBatch([big]).1.Rejected?;
    assert AllLegal(ops) && AllSized([big]);
  }

  /** A pass that expires everything makes the retry of a parked enqueue succeed. */
  lemma FullExpiryUnparks(s: State, item: Item, now: int)
    requires Reachable(s) && Sized(item) && s.Enqueue(item).1 == Park
    requires s.expiring && Surviving(s.view.log, s.view.mark, now, s.ttl) == |s.view.log|
    ensures s.Expire(now).0.Enqueue(item).1 == Admitted
  {
    ParkedMeansOccupied(s, item, []);
    StepReachable(s, Expire(now));
    ParkedEnqueueFitsEmpty(s, item, s.Expire(now).0);
  }

  lemma StepKeepsLimits(s: State, op: Op)
    requires Reachable(s) && Legal(op)
    ensures Step(s, op).0.maxItems == s.maxItems && Step(s, op).0.maxMemory == s.maxMemory
  {
  }

  lemma {:induction false} RunKeepsLimits(s: State, ops: seq<Op>)
    requires Reachable(s) && AllLegal(ops)
    ensures Run(s, ops).0.maxItems == s.maxItems && Run(s, ops).0.maxMemory == s.maxMemory
    decreases |ops|
  {
    if ops != [] {
      var n := |ops| - 1;
      RunKeepsLimits(s, ops[..n]);
      StepKeepsLimits(Run(s, ops[..n]).0, ops[n]);
    }
  }

  /**
   Whatever happens while a producer is parked, a retry that finds the queue open and empty
   is admitted; for a batch, exactly when its bytes fit the limit.
   */
  lemma ParkedRetry(s: State, ops: seq<Op>, item: Item, items: seq<Item>)
    requires Reachable(s) && AllLegal(ops) && Sized(item) && AllSized(items)
    ensures
      var t := Run(s, ops).0;
      t.Count() == 0 && !t.closed ==>
        && (s.Enqueue(item).1 == Park ==> t.Enqueue(item).1 == Admitted)
        && (s.EnqueueBatch(items).1 == Park ==>
              (t.EnqueueBatch(items).1 == Admitted <==> Bytes(items, 0) <= s.maxMemory))
  {
    var t := Run(s, ops).0;
    RunKeepsLimits(s, ops);
    if t.Count() == 0 && !t.closed {
      if s.Enqueue(item).1 == Park {
        ParkedEnqueueFitsEmpty(s, item, t);
      }
      if s.EnqueueBatch(items).1 == Park {
        ParkedBatchFitsEmpty(s, items, t);
      }
    }
  }

  // ---------- batches ----------

  /** No 64-bit effect shows: a batch is admitted exactly when its true total fits. */
  lemma BatchAdmittedIff(s: State, items: seq<Item>)
    requires Reachable(s) && AllSized(items) && s.maxMemory <= MAX_INT64
    ensures s.TryEnqueueBatch(items).1 == Admitted <==>
      && !s.closed
      && (items != [] && s.maxItems > 0 ==> s.Count() + |items| <= s.maxItems)
      && (items != [] ==> Bytes(items, 0) <= s.maxMemory - s.view.Memory())
    ensures s.TryEnqueueBatch(items).1 == Admitted && items != [] ==> s.TryEnqueueBatch(items).0 == s.Admit(items)
    ensures s.TryEnqueueBatch(items).1 != Admitted ==> s.TryEnqueueBatch(items).0 == s
  {
    BytesNonNegative(s.view.log, s.view.mark);
  }

  /** The state after enqueuing the items one at a time, if all are admitted. */
  function Singles(s: State, items: seq<Item>): Option<State>
    requires s.Bounded()
    decreases |items|
  {
    if items == [] then Some(s)
    else
      var (t, a) := s.TryEnqueue(items[0]);
      if a == Admitted then Singles(t, items[1..]) else None
  }

  lemma AppendGrows(v: View, x: Item)
    requires v.Ok() && Sized(x)
    ensures v.Append([x]).Memory() >= v.Memory() + x.size
  {
    BytesAppend(v.log, x, v.mark);
    ChunksGrow(v, [x]);
  }

  /** What single enqueues would admit, the batch admits, with the same log and layout. */
  lemma {:induction false} SinglesImplyBatch(s: State, items: seq<Item>)
    requires Reachable(s) && AllSized(items) && Singles(s, items).Some?
    requires s.maxMemory <= MAX_INT64 && items != []
    ensures s.TryEnqueueBatch(items).1 == Admitted
    ensures s.TryEnqueueBatch(items).0.view == Singles(s, items).value.view
    decreases |items|
  {
    var x, rest := items[0], items[1..];
    var t := s.TryEnqueue(x).0;
    BytesNonNegative(s.view.log, s.view.mark);
    AppendGrows(s.view, x);
    assert items == [x] + rest;
    BytesConcat([x], rest, 0);
    OneItem(x);
    if rest == [] {
      assert Bytes(rest, 0) == 0;
    } else {
      StepReachable(s, TryEnqueue(x));
      SinglesImplyBatch(t, rest);
      assert s.view.log + items == s.view.log + [x] + rest;
    }
  }

  // ---------- the three questions a reader can ask ----------

  /** A read yields something exactly when the reader is not blocked and something is unread. */
  lemma ReadYieldsIff(s: State, k: Key)
    requires Reachable(s)
    ensures s.ReadBatch(k, 1).1 != [] <==>
      !Blocked(s.readers, s.closed, k) && s.readers[k].Unread(s.view) > 0
    ensures !Blocked(s.readers, s.closed, k) && s.readers[k].Unread(s.view) > 0 ==>
      s.ReadBatch(k, 1).1 == [s.view.log[s.readers[k].Next(s.view)]]
  {
    if !Blocked(s.readers, s.closed, k) {
      TakeIsPrefix(s.readers[k], s.view, 1, []);
    }
  }

  /** Asked for one more than there is, a read gives what there is. */
  lemma RestIsUnread(s: State, k: Key, n: int)
    requires Reachable(s) && n == if Blocked(s.readers, s.closed, k) then 0 else s.readers[k].Unread(s.view)
    ensures |s.ReadBatch(k, n + 1).1| == n
  {
    if !Blocked(s.readers, s.closed, k) {
      TakeIsPrefix(s.readers[k], s.view, n + 1, []);
    }
  }
}
