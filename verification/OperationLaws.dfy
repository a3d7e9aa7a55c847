/**
 What each operation does, said without the functions that define it: which outcome exactly
 when, and which part of the state changes, in terms of the log, the mark, the limits and the
 fields of the readers.
 */
module OperationLaws {
  import opened QueueTypes
  import opened LogView
  import opened Readers
  import opened QueueSpec
  import opened ExpiryTheorems
  import Theorems = AdmissionTheorems

  // ---------- vocabulary ----------

  function SumOf(items: seq<Item>): int {
    if items == [] then 0 else SumOf(items[..|items| - 1]) + items[|items| - 1].size
  }

  lemma {:induction false} SumIsBytes(items: seq<Item>)
    ensures SumOf(items) == Bytes(items, 0)
  {
    if items != [] {
      var n := |items| - 1;
      SumIsBytes(items[..n]);
      BytesAppend(items[..n], items[n], 0);
      assert items == items[..n] + [items[n]];
    } else {
      assert Bytes(items, 0) == 0;
    }
  }

  /** The log grows at the end, and nothing else changes. */
  ghost predicate Grown(s: State, t: State, items: seq<Item>) {
    t == s.(view := View(s.view.log + items, s.view.mark, s.view.front), biggest := Max(s.biggest, |items|))
  }

  /** Only the reader of `k` changes: it has consumed the positions from `p` up to `q`. */
  ghost predicate Consumed(s: State, t: State, k: Key, p: nat, q: nat) {
    && k in s.readers && p <= q
    && var r := s.readers[k];
    t == s.(readers := s.readers[k :=
      if p == q then r else r.(offset := q, delivered := r.delivered + Range(p, q - p))])
  }

  /** A reader that gets nothing: unknown, closed, or of a closed queue if it is a group. */
  predicate Barred(s: State, k: Key) {
    k !in s.readers || (k.Group? && s.closed) || (k.Independent? && s.readers[k].closed)
  }

  predicate Full(s: State, n: nat) {
    s.maxItems > 0 && |s.view.log| - s.view.mark + n > s.maxItems
  }

  // ---------- producers ----------

  lemma TryEnqueueLaw(s: State, item: Item)
    requires Reachable(s) && Sized(item)
    ensures
      var (t, out) := Step(s, TryEnqueue(item));
      var used := s.view.Memory();
      && (out == Enqueued(Admitted) <==> !s.closed && !Full(s, 1) && used + item.size <= s.maxMemory)
      && (out == Enqueued(Rejected(QueueClosed)) <==> s.closed)
      && (out == Enqueued(Rejected(QueueFull(s.maxItems))) <==> !s.closed && Full(s, 1))
      && (out == Enqueued(Rejected(MemoryLimit(used, s.maxMemory, item.size)))
          <==> !s.closed && !Full(s, 1) && used + item.size > s.maxMemory)
      && if out == Enqueued(Admitted) then Grown(s, t, [item]) else t == s
  {
  }

  lemma EnqueueLaw(s: State, item: Item)
    requires Reachable(s) && Sized(item)
    ensures
      var (t, out) := Step(s, Enqueue(item));
      var used := s.view.Memory();
      && (out == Enqueued(Rejected(QueueClosed)) <==> s.closed)
      && (out == Enqueued(Rejected(MemoryLimit(used, s.maxMemory, item.size)))
          <==> !s.closed && item.size > s.maxMemory)
      && (out == Enqueued(Admitted)
          <==> !s.closed && item.size <= s.maxMemory && !Full(s, 1) && used + item.size <= s.maxMemory)
      && (out == Enqueued(Park)
          <==> !s.closed && item.size <= s.maxMemory && (Full(s, 1) || used + item.size > s.maxMemory))
      && if out == Enqueued(Admitted) then Grown(s, t, [item]) else t == s
  {
  }

  lemma TryEnqueueBatchLaw(s: State, items: seq<Item>)
    requires Reachable(s) && AllSized(items)
    ensures
      var (t, out) := Step(s, TryEnqueueBatch(items));
      var used, sum, some := s.view.Memory(), SumOf(items), items != [];
      && (out == Enqueued(Rejected(QueueClosed)) <==> s.closed)
      && (out == Enqueued(Rejected(QueueFull(s.maxItems))) <==> !s.closed && some && Full(s, |items|))
      && (out == Enqueued(Rejected(Overflow)) <==> !s.closed && some && !Full(s, |items|) && sum > MAX_INT64)
      && (out == Enqueued(Rejected(MemoryLimit(used, s.maxMemory, sum)))
          <==> !s.closed && some && !Full(s, |items|) && sum <= MAX_INT64 && used + sum > s.maxMemory)
      && (out == Enqueued(Admitted)
          <==> !s.closed && (some ==> !Full(s, |items|) && sum <= MAX_INT64 && used + sum <= s.maxMemory))
      && if out == Enqueued(Admitted) && some then Grown(s, t, items) else t == s
  {
    SumIsBytes(items);
  }

  lemma UsedIsNonNegative(s: State)
    requires Reachable(s)
    ensures s.view.Memory() >= 0
  {
    BytesNonNegative(s.view.log, s.view.mark);
  }

  lemma EnqueueBatchLaw(s: State, items: seq<Item>)
    requires Reachable(s) && AllSized(items)
    ensures
      var (t, out) := Step(s, EnqueueBatch(items));
      var used, sum, some := s.view.Memory(), SumOf(items), items != [];
      var tooMany := s.maxItems > 0 && |items| > s.maxItems;
      && (out == Enqueued(Rejected(QueueClosed)) <==> s.closed)
      && (out == Enqueued(Rejected(Overflow)) <==> !s.closed && some && sum > MAX_INT64)
      && (out == Enqueued(Rejected(QueueFull(s.maxItems)))
          <==> !s.closed && some && sum <= MAX_INT64 && tooMany)
      && (out == Enqueued(Rejected(MemoryLimit(used, s.maxMemory, sum)))
          <==> !s.closed && some && sum <= MAX_INT64 && !tooMany && !Full(s, |items|) && sum > s.maxMemory)
      && (out == Enqueued(Park)
          <==> !s.closed && some && sum <= MAX_INT64 && !tooMany
               && (Full(s, |items|) || (sum <= s.maxMemory && used + sum > s.maxMemory)))
      && (out == Enqueued(Admitted)
          <==> !s.closed && (some ==> !Full(s, |items|) && sum <= MAX_INT64 && used + sum <= s.maxMemory))
      && if out == Enqueued(Admitted) && some then Grown(s, t, items) else t == s
  {
    SumIsBytes(items);
    UsedIsNonNegative(s);
  }

  // ---------- expiry ----------

  /** What a pass does to a reader: it books the unread items that went. */
  ghost predicate Bereft(r: Reader, r': Reader, mark: nat, n: nat) {
    var next := if r.offset < mark then mark else r.offset;
    r' == r.(lost := r.lost + if next < mark + n then mark + n - next else 0)
  }

  /** Every item removed is older than the time-to-live at this very time, and the next is not. */
  ghost predicate OldestGone(s: State, now: int, n: nat) {
    && s.view.mark + n <= |s.view.log|
    && (forall i :: s.view.mark <= i < s.view.mark + n ==> now - s.view.log[i].created > s.ttl)
    && (s.view.mark + n < |s.view.log| ==> now - s.view.log[s.view.mark + n].created <= s.ttl)
  }

  lemma ExpireLaw(s: State, now: int)
    requires Reachable(s)
    ensures
      var (t, out) := Step(s, Expire(now));
      && out.Removed?
      && (!s.expiring ==> t == s && out == Removed(0))
      && (s.expiring ==>
            && OldestGone(s, now, out.count)
            && t.view.log == s.view.log && t.view.mark == s.view.mark + out.count && t.view.Ok()
            && (t.view.front == |s.view.log| || (t.view.front - s.view.front) % CHUNK_SIZE == 0)
            && t.readers.Keys == s.readers.Keys
            && (forall k :: k in s.readers ==> Bereft(s.readers[k], t.readers[k], s.view.mark, out.count))
            && t == s.(view := t.view, readers := t.readers))
  {
    var q := Surviving(s.view.log, s.view.mark, now, s.ttl);
    LongestExpiredPrefix(s.view.log, s.view.mark, now, s.ttl);
    AdvanceOk(s.view, q);
  }

  // ---------- readers ----------

  lemma RegisterLaw(s: State, k: Key)
    requires Reachable(s)
    ensures
      var (t, out) := Step(s, AddReader(k));
      && out == Done
      && (k in s.readers ==> t == s)
      && (k !in s.readers ==>
            t == s.(readers := s.readers[k := Reader(s.view.mark, false, s.view.mark, [], 0, 0)]))
  {
  }

  lemma RemoveLaw(s: State, k: Key)
    requires Reachable(s)
    ensures
      var (t, out) := Step(s, RemoveReader(k));
      && out == Done && t == s.(readers := t.readers) && t.readers.Keys == s.readers.Keys - {k}
      && forall j :: j in t.readers ==> t.readers[j] == s.readers[j]
  {
  }

  /** Where the reader of `k` reads next. */
  function Place(s: State, k: Key): nat
    requires k in s.readers
  {
    if s.readers[k].offset < s.view.mark then s.view.mark else s.readers[k].offset
  }

  /** A batch is the next items of the log, as many as asked for or as there are. */
  lemma ReadBatchLaw(s: State, k: Key, limit: int)
    requires Reachable(s)
    ensures
      var (t, out) := Step(s, ReadBatch(k, limit));
      && out.Items?
      && (Barred(s, k) ==> t == s && out.items == [])
      && (!Barred(s, k) ==>
            var (p, n) := (Place(s, k), |out.items|);
            && p + n <= |s.view.log| && out.items == s.view.log[p..p + n] && Consumed(s, t, k, p, p + n)
            && (n == limit || (limit < 0 && n == 0) || (n < limit && p + n == |s.view.log|)))
  {
    if !Barred(s, k) {
      TakeIsPrefix(s.readers[k], s.view, Max(limit, 0), []);
    }
  }

  lemma ReadLaw(s: State, k: Key)
    requires Reachable(s)
    ensures Step(s, Read(k)) == Step(s, ReadBatch(k, 1))
  {
  }

  lemma {:induction false} FirstMatchLaw(log: seq<Item>, p: nat, want: Item -> bool)
    requires p <= |log|
    ensures
      var q := FirstMatch(log, p, want);
      (forall i :: p <= i < q ==> !want(log[i])) && (q < |log| ==> want(log[q]))
    decreases |log| - p
  {
    if p < |log| && !want(log[p]) {
      FirstMatchLaw(log, p + 1, want);
    }
  }

  /** `q` is the first unread position whose item is wanted. */
  ghost predicate FirstWanted(s: State, p: nat, want: Item -> bool, q: nat) {
    p <= q < |s.view.log| && want(s.view.log[q]) && forall i :: p <= i < q ==> !want(s.view.log[i])
  }

  /** An open consumer gets the first unread item that is wanted and consumes everything up to
      it, or everything when none is. */
  ghost predicate GetsFirstWanted(s: State, t: State, k: Key, want: Item -> bool, item: Option<Item>)
    requires k in s.readers
  {
    var p := Place(s, k);
    && (item.None? <==> forall i :: p <= i < |s.view.log| ==> !want(s.view.log[i]))
    && (item.None? ==> Consumed(s, t, k, p, |s.view.log|))
    && (item.Some? ==>
          exists q: nat :: FirstWanted(s, p, want, q) && item == Some(s.view.log[q]) && Consumed(s, t, k, p, q + 1))
  }

  lemma SeekConsumes(s: State, k: Key, want: Item -> bool, p: nat, q: nat)
    requires Reachable(s) && k.Independent? && !Barred(s, k)
    requires p == Place(s, k) && q == FirstMatch(s.view.log, p, want)
    ensures
      var (t, item, _) := s.ReadWhere(k, want);
      && item == (if q < |s.view.log| then Some(s.view.log[q]) else None)
      && Consumed(s, t, k, p, if q < |s.view.log| then q + 1 else q)
  {
    SeekIsFirstMatch(s.readers[k], s.view, want);
  }

  lemma OpenWhereLaw(s: State, k: Key, want: Item -> bool)
    requires Reachable(s) && k.Independent? && !Barred(s, k)
    ensures GetsFirstWanted(s, s.ReadWhere(k, want).0, k, want, s.ReadWhere(k, want).1)
  {
    var p := Place(s, k);
    var q := FirstMatch(s.view.log, p, want);
    SeekConsumes(s, k, want, p, q);
    FirstMatchLaw(s.view.log, p, want);
    assert q < |s.view.log| ==> FirstWanted(s, p, want, q);
  }

  lemma ReadWhereLaw(s: State, k: Key, want: Item -> bool)
    requires Reachable(s)
    ensures
      var (t, out) := Step(s, ReadWhere(k, want));
      && out.Found?
      && (k.Group? ==> t == s && out == Found(None, Some(FilterNotSupported)))
      && (k.Independent? ==> out.error == None)
      && (k.Independent? && Barred(s, k) ==> t == s && out.item == None)
      && (k.Independent? && !Barred(s, k) ==> GetsFirstWanted(s, t, k, want, out.item))
  {
    if k.Independent? && !Barred(s, k) {
      OpenWhereLaw(s, k, want);
    }
  }

  // ---------- questions and settings ----------

  lemma {:induction false} BytesFrom(log: seq<Item>, p: nat)
    requires p <= |log|
    ensures Bytes(log, p) == Bytes(log[p..], 0)
  {
    assert log == log[..p] + log[p..];
    BytesConcat(log[..p], log[p..], p);
    assert Bytes(log[..p], p) == 0;
  }

  /** Memory is the sizes of the stored items and the overhead of just enough chunks. */
  lemma MemoryLaw(s: State, chunks: nat)
    requires Reachable(s)
    requires CHUNK_SIZE * (chunks - 1) < |s.view.log| - s.view.front <= CHUNK_SIZE * chunks
    ensures Step(s, MemoryUsage) == (s, Number(SumOf(s.view.log[s.view.mark..]) + CHUNK_NODE_SIZE * chunks))
  {
    SumIsBytes(s.view.log[s.view.mark..]);
    BytesFrom(s.view.log, s.view.mark);
    ChunkCount(s.view, chunks);
  }

  lemma SettingsLaw(s: State, ttl: int, on: bool)
    requires Reachable(s)
    ensures Step(s, SetTTL(ttl)) == (s.(ttl := ttl), Done)
    ensures Step(s, SetExpiration(on)) == (s.(expiring := on), Done)
    ensures Step(s, TotalItems) == (s, Number(|s.view.log| - s.view.mark))
  {
  }

  /** A new queue is open and empty, without readers, and expires items if it has a ttl. */
  lemma InitialLaw(maxItems: int, maxMemory: int, ttl: int)
    ensures
      var s := Initial(maxItems, maxMemory, ttl);
      && Reachable(s) && s.view.log == [] && s.readers == map[] && !s.closed && !s.cleared
      && s.ttl == ttl && (s.expiring <==> ttl > 0) && s.maxItems == maxItems
      && s.maxMemory == (if maxMemory > 0 then maxMemory else 1024 * 1024)
      && Step(s, MemoryUsage).1 == Number(0) && Step(s, TotalItems).1 == Number(0)
  {
  }

  // ---------- Close ----------

  /** The first half of Close acts once: it closes every independent consumer, and groups find
      the queue closed. */
  lemma CloseFlagLaw(s: State)
    requires Reachable(s)
    ensures
      var (t, out) := Step(s, CloseFlag);
      && out == Done && t.closed && (s.closed ==> t == s)
      && t == s.(closed := true, readers := t.readers) && t.readers.Keys == s.readers.Keys
      && (!s.closed ==> forall k :: k in s.readers ==>
            t.readers[k] == s.readers[k].(closed := k.Independent? || s.readers[k].closed) && Barred(t, k))
  {
  }

  /** The second half takes everything that is left, once and only after the first. */
  lemma CloseClearLaw(s: State)
    requires Reachable(s)
    ensures
      var (t, out) := Step(s, CloseClear);
      && out == Done
      && (!s.closed || s.cleared ==> t == s)
      && (s.closed && !s.cleared ==>
            var n := |s.view.log|;
            && t == s.(view := View(s.view.log, n, n), cleared := true, readers := t.readers)
            && t.readers.Keys == s.readers.Keys
            && forall k :: k in s.readers ==>
                 t.readers[k] == s.readers[k].(dropped := s.readers[k].dropped + n - Place(s, k)))
  {
  }

  /** One more operation: its step and its output. */
  lemma RunSnoc(s: State, ops: seq<Op>, op: Op)
    requires Reachable(s) && AllLegal(ops) && Legal(op)
    ensures AllLegal(ops + [op])
    ensures Run(s, ops + [op]).0 == Step(Run(s, ops).0, op).0
    ensures Run(s, ops + [op]).1 == Run(s, ops).1 + [Step(Run(s, ops).0, op).1]
  {
    assert (ops + [op])[..|ops|] == ops;
  }

  /** Two runs that end in one state go on alike. */
  lemma GoOnAlike(s: State, t: State, a: seq<Op>, b: seq<Op>, outs: seq<Output>, op: Op)
    requires Reachable(s) && Reachable(t) && AllLegal(a) && AllLegal(b) && Legal(op)
    requires Run(s, a).0 == Run(t, b).0 && Run(s, a).1 == outs + Run(t, b).1
    ensures AllLegal(a + [op]) && AllLegal(b + [op])
    ensures Run(s, a + [op]).0 == Run(t, b + [op]).0
    ensures Run(s, a + [op]).1 == outs + Run(t, b + [op]).1
  {
    RunSnoc(s, a, op);
    RunSnoc(t, b, op);
  }

  lemma {:induction false} RunConcat(s: State, a: seq<Op>, b: seq<Op>)
    requires Reachable(s) && AllLegal(a) && AllLegal(b)
    ensures AllLegal(a + b)
    ensures Run(s, a + b).0 == Run(Run(s, a).0, b).0
    ensures Run(s, a + b).1 == Run(s, a).1 + Run(Run(s, a).0, b).1
    decreases |b|
  {
    if b == [] {
      assert a + b == a;
    } else {
      var n := |b| - 1;
      RunConcat(s, a, b[..n]);
      GoOnAlike(s, Run(s, a).0, a + b[..n], b[..n], Run(s, a).1, b[n]);
      assert a + b[..n] + [b[n]] == a + b && b[..n] + [b[n]] == b;
    }
  }

  lemma ClosesAndClears(s: State)
    requires Reachable(s)
    ensures
      var t := Run(s, [CloseFlag, CloseClear]).0;
      t.closed && t.cleared && t.view.log == s.view.log
  {
    var ops: seq<Op> := [CloseFlag, CloseClear];
    assert ops[..1] == [CloseFlag] && ops[..1][..0] == [] && ops[..0] == [];
    assert Run(s, []).0 == s;
    assert Run(s, ops[..1]).0 == Step(s, CloseFlag).0;
    CloseFlagLaw(s);
    var c := Step(s, CloseFlag).0;
    CloseClearLaw(c);
    assert Run(s, ops).0 == Step(c, CloseClear).0;
  }

  /** The output of an operation is that of its step. */
  lemma {:induction false} OutputAt(s: State, ops: seq<Op>, i: nat)
    requires Reachable(s) && AllLegal(ops) && i < |ops|
    ensures Run(s, ops).1[i] == Step(Run(s, ops[..i]).0, ops[i]).1
    decreases |ops|
  {
    var n := |ops| - 1;
    RunSnoc(s, ops[..n], ops[n]);
    assert ops[..n] + [ops[n]] == ops;
    if i < n {
      OutputAt(s, ops[..n], i);
      assert ops[..n][..i] == ops[..i] && ops[..n][i] == ops[i];
    }
  }

  /** A cleared queue holds nothing, and says so. */
  ghost predicate Emptied(s: State) {
    && s.closed && s.cleared && s.view.front <= |s.view.log| && s.view.mark <= |s.view.log|
    && s.Count() == 0 && s.view.Chunks() == 0 && s.view.Memory() == 0
  }

  lemma EmptiedAnswers(s: State, op: Op)
    requires Reachable(s) && Emptied(s) && (op.TotalItems? || op.MemoryUsage?)
    ensures Step(s, op) == (s, Number(0))
  {
  }

  lemma FinallyEmptied(c: State, ops: seq<Op>)
    requires Reachable(c) && c.cleared && AllLegal(ops)
    ensures Emptied(Run(c, ops).0) && Run(c, ops).0.view.log == c.view.log
  {
    Theorems.CloseIsFinal(c, ops);
  }

  lemma FinalAnswers(c: State, ops: seq<Op>, i: nat)
    requires Reachable(c) && c.cleared && AllLegal(ops)
    requires i < |ops| && (ops[i].TotalItems? || ops[i].MemoryUsage?)
    ensures Run(c, ops).1[i] == Number(0)
  {
    OutputAt(c, ops, i);
    FinallyEmptied(c, ops[..i]);
    EmptiedAnswers(Run(c, ops[..i]).0, ops[i]);
  }

  /** From output `from` on, whoever asks for the number of items or of bytes is told zero. */
  ghost predicate TellsZero(ops: seq<Op>, outs: seq<Output>, from: nat) {
    forall i :: from <= i < |ops| && i < |outs| && (ops[i].TotalItems? || ops[i].MemoryUsage?) ==> outs[i] == Number(0)
  }

  lemma AllFinalAnswers(c: State, ops: seq<Op>)
    requires Reachable(c) && c.cleared && AllLegal(ops)
    ensures TellsZero(ops, Run(c, ops).1, 0)
  {
    forall i | 0 <= i < |ops| && (ops[i].TotalItems? || ops[i].MemoryUsage?)
      ensures Run(c, ops).1[i] == Number(0)
    {
      FinalAnswers(c, ops, i);
    }
  }

  lemma ShiftedAnswers(a: seq<Op>, b: seq<Op>, outs: seq<Output>, more: seq<Output>)
    requires |outs| == |a| && |more| == |b| && TellsZero(b, more, 0)
    ensures TellsZero(a + b, outs + more, |a|)
  {
    forall i | |a| <= i < |a + b| && ((a + b)[i].TotalItems? || (a + b)[i].MemoryUsage?)
      ensures (outs + more)[i] == Number(0)
    {
      assert (a + b)[i] == b[i - |a|] && (outs + more)[i] == more[i - |a|];
    }
  }

  /** After the two halves of Close, whatever follows, nothing is stored, and the queue says so. */
  lemma CloseEmpties(s: State, ops: seq<Op>)
    requires Reachable(s) && AllLegal(ops)
    ensures
      var close: seq<Op> := [CloseFlag, CloseClear];
      && AllLegal(close + ops)
      && Emptied(Run(s, close + ops).0) && Run(s, close + ops).0.view.log == s.view.log
      && TellsZero(close + ops, Run(s, close + ops).1, 2)
  {
    var close: seq<Op> := [CloseFlag, CloseClear];
    ClosesAndClears(s);
    RunConcat(s, close, ops);
    var (c, outs) := Run(s, close);
    FinallyEmptied(c, ops);
    AllFinalAnswers(c, ops);
    ShiftedAnswers(close, ops, outs, Run(c, ops).1);
  }

  lemma StepStaysBarred(s: State, op: Op, k: Key)
    requires Reachable(s) && Legal(op) && s.closed && Barred(s, k)
    requires !(op.AddReader? && op.key == k)
    ensures Step(s, op).0.closed && Barred(Step(s, op).0, k)
  {
    match op
    case Expire(now) => ExpireLaw(s, now);
    case Read(j) =>
      ReadLaw(s, j);
      ReadBatchLaw(s, j, 1);
    case ReadBatch(j, limit) => ReadBatchLaw(s, j, limit);
    case ReadWhere(j, want) => ReadWhereLaw(s, j, want);
    case CloseFlag => CloseFlagLaw(s);
    case CloseClear => CloseClearLaw(s);
    case _ =>
  }

  ghost predicate NeverAdds(ops: seq<Op>, k: Key) {
    forall i :: 0 <= i < |ops| ==> !(ops[i].AddReader? && ops[i].key == k)
  }

  lemma {:induction false} RunStaysBarred(s: State, ops: seq<Op>, k: Key)
    requires Reachable(s) && AllLegal(ops) && s.closed && Barred(s, k) && NeverAdds(ops, k)
    ensures Run(s, ops).0.closed && Barred(Run(s, ops).0, k)
    decreases |ops|
  {
    if ops != [] {
      var n := |ops| - 1;
      RunStaysBarred(s, ops[..n], k);
      StepStaysBarred(Run(s, ops[..n]).0, ops[n], k);
    }
  }

  /** Whoever was registered when an open queue was closed reads nothing from then on. */
  lemma ClosedReadsNothing(s: State, ops: seq<Op>, k: Key, limit: int, want: Item -> bool)
    requires Reachable(s) && !s.closed && k in s.readers && AllLegal(ops) && NeverAdds(ops, k)
    ensures
      var c := Step(s, CloseFlag).0;
      && Reachable(c)
      && var t := Run(c, ops).0;
      && Step(t, ReadBatch(k, limit)) == (t, Items([]))
      && Step(t, ReadWhere(k, want)).0 == t && Step(t, ReadWhere(k, want)).1.item == None
  {
    StepReachable(s, CloseFlag);
    CloseFlagLaw(s);
    var c := Step(s, CloseFlag).0;
    RunStaysBarred(c, ops, k);
    var t := Run(c, ops).0;
    ReadBatchLaw(t, k, limit);
    ReadWhereLaw(t, k, want);
  }
}
