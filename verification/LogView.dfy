/**
 The simple picture of the stored data: an append-only log, a low-water mark
 below which everything has expired, and the log position `front` at which the
 oldest allocated chunk starts.
 */
module LogView {
  import opened QueueTypes

  /** The first position at or after `p` whose item has not expired. */
  function Surviving(log: seq<Item>, p: nat, now: int, ttl: int): (q: nat)
    requires p <= |log|
    ensures p <= q <= |log|
    decreases |log| - p
  {
    if p < |log| && Expired(log[p], now, ttl) then Surviving(log, p + 1, now, ttl) else p
  }

  /** Total byte size of the log from position `p` on. */
  function Bytes(log: seq<Item>, p: nat): int
    requires p <= |log|
    decreases |log| - p
  {
    if p == |log| then 0 else log[p].size + Bytes(log, p + 1)
  }

  datatype View = View(log: seq<Item>, mark: nat, front: nat) {

    ghost predicate Ok() {
      && front <= mark <= |log|
      && (mark == |log| ==> front == |log|)
      && (mark < |log| ==> mark < front + CHUNK_SIZE)
      && AllSized(log)
    }

    /** Number of chunks that the layout needs. */
    function Chunks(): nat
      requires front <= |log|
    {
      (|log| - front + CHUNK_SIZE - 1) / CHUNK_SIZE
    }

    /** Start, fill and head of the `k`-th chunk of the layout. */
    function BaseOf(k: nat): int { front + CHUNK_SIZE * k }

    function SizeOf(k: nat): int { Min(CHUNK_SIZE, |log| - BaseOf(k)) }

    function HeadOf(k: nat): int { if k == 0 then mark - front else 0 }

    /** `n` chunks are exactly enough for the items from `front` on. */
    predicate Fits(n: nat) {
      if n == 0 then front == |log| else BaseOf(n - 1) < |log| <= BaseOf(n)
    }

    function Memory(): int
      requires front <= |log| && mark <= |log|
    {
      Bytes(log, mark) + CHUNK_NODE_SIZE * Chunks()
    }

    function Append(items: seq<Item>): View {
      View(log + items, mark, front)
    }

    /** Raise the mark to `q`, dropping the chunks that lie wholly below it. */
    function Advance(q: nat): View
      requires front <= q <= |log|
    {
      View(log, q, if q == |log| then q else front + (q - front) / CHUNK_SIZE * CHUNK_SIZE)
    }
  }

  lemma {:induction false} BytesAppend(log: seq<Item>, x: Item, p: nat)
    requires p <= |log|
    ensures Bytes(log + [x], p) == Bytes(log, p) + x.size
    decreases |log| - p
  {
    if p < |log| {
      BytesAppend(log, x, p + 1);
      assert (log + [x])[p] == log[p];
    } else {
      assert (log + [x])[p] == x;
      assert Bytes(log + [x], p + 1) == 0;
    }
  }

  /** The linear form of the chunk count. */
  lemma ChunkCount(v: View, n: nat)
    requires v.front <= |v.log| && v.Fits(n)
    ensures v.Chunks() == n
  {
  }

  /** The linear form of the layout after `n` whole chunks have gone. */
  lemma AdvanceByChunks(v: View, n: nat, q: nat)
    requires v.front <= q < |v.log| && v.BaseOf(n) <= q < v.BaseOf(n + 1)
    ensures v.Advance(q) == View(v.log, q, v.BaseOf(n))
  {
  }

  lemma {:induction false} BytesNonNegative(log: seq<Item>, p: nat)
    requires p <= |log| && AllSized(log)
    ensures Bytes(log, p) >= MIN_ITEM_SIZE * (|log| - p)
    decreases |log| - p
  {
    if p < |log| {
      BytesNonNegative(log, p + 1);
    }
  }

  lemma {:induction false} BytesShrink(log: seq<Item>, p: nat, q: nat)
    requires p <= q <= |log| && AllSized(log)
    ensures Bytes(log, q) <= Bytes(log, p)
    decreases q - p
  {
    if p < q {
      BytesShrink(log, p + 1, q);
    }
  }

  /** Skipping a run of expired items does not move the first survivor. */
  lemma {:induction false} SurvivingSkip(log: seq<Item>, p: nat, q: nat, now: int, ttl: int)
    requires p <= q <= |log|
    requires forall i :: p <= i < q ==> Expired(log[i], now, ttl)
    ensures Surviving(log, p, now, ttl) == Surviving(log, q, now, ttl)
    decreases q - p
  {
    if p < q {
      SurvivingSkip(log, p + 1, q, now, ttl);
    }
  }

  lemma {:induction false} BytesConcat(a: seq<Item>, b: seq<Item>, p: nat)
    requires p <= |a|
    ensures Bytes(a + b, p) == Bytes(a, p) + Bytes(b, 0)
    decreases |b|
  {
    if b == [] {
      assert a + b == a;
    } else {
      var n := |b| - 1;
      assert a + b == (a + b[..n]) + [b[n]] && b == b[..n] + [b[n]];
      BytesConcat(a, b[..n], p);
      BytesAppend(a + b[..n], b[n], p);
      BytesAppend(b[..n], b[n], 0);
    }
  }

  /** Room in int64 for `maxMemory` bytes and the chunk overhead of the largest batch. */
  predicate FitsInt64(maxMemory: int) {
    0 < maxMemory
    && maxMemory + CHUNK_NODE_SIZE * (maxMemory / (MIN_ITEM_SIZE * CHUNK_SIZE) + 2) <= MAX_INT64
  }

  /** Appending `n` items needs at most one more chunk for every started thousand. */
  lemma ChunksGrow(v: View, items: seq<Item>)
    requires v.front <= |v.log|
    ensures v.Chunks() <= v.Append(items).Chunks() <= v.Chunks() + (|items| + CHUNK_SIZE - 1) / CHUNK_SIZE
  {
  }

  lemma PrefixBytes(items: seq<Item>, i: nat)
    requires AllSized(items) && i < |items|
    ensures Bytes(items[..i], 0) + items[i].size <= Bytes(items, 0)
    ensures MIN_ITEM_SIZE * |items| <= Bytes(items, 0)
  {
    assert items == items[..i] + items[i..];
    BytesConcat(items[..i], items[i..], 0);
    BytesNonNegative(items[i..], 1);
    BytesNonNegative(items, 0);
  }

  lemma OverheadBound(n: nat, i: nat, maxMemory: int)
    requires i < n && MIN_ITEM_SIZE * n <= maxMemory
    ensures (i + CHUNK_SIZE - 1) / CHUNK_SIZE + 1 <= maxMemory / (MIN_ITEM_SIZE * CHUNK_SIZE) + 2
  {
    assert (i + CHUNK_SIZE - 1) / CHUNK_SIZE <= n / CHUNK_SIZE + 1;
    assert n / CHUNK_SIZE <= maxMemory / (MIN_ITEM_SIZE * CHUNK_SIZE);
  }

  /** No partial sum of an admitted batch leaves int64, chunk overhead included. */
  lemma BatchRoom(v: View, items: seq<Item>, i: nat, maxMemory: int)
    requires v.Ok() && AllSized(items) && i < |items| && FitsInt64(maxMemory)
    requires v.Memory() + Bytes(items, 0) <= maxMemory
    ensures v.Append(items[..i]).Memory() + CHUNK_NODE_SIZE + items[i].size <= MAX_INT64
  {
    BytesConcat(v.log, items[..i], v.mark);
    BytesNonNegative(v.log, v.mark);
    PrefixBytes(items, i);
    ChunksGrow(v, items[..i]);
    OverheadBound(|items|, i, maxMemory);
  }

  lemma AppendSteps(v: View, items: seq<Item>, i: nat)
    requires i < |items|
    ensures v.Append(items[..i]).Append([items[i]]) == v.Append(items[..i + 1])
  {
    assert items[..i + 1] == items[..i] + [items[i]];
    assert v.log + items[..i + 1] == v.log + items[..i] + [items[i]];
  }
}
