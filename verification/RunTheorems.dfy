/** Properties of every run of the queue, by induction over its operations. */
module RunTheorems {
  import opened QueueTypes
  import opened LogView
  import opened Readers
  import opened QueueSpec

  // ---------- conservation and order of delivery ----------

  /** The log positions that a reader got, in order, without repetition. */
  ghost predicate InOrder(r: Reader, v: View) {
    && (forall i :: 0 <= i < |r.delivered| ==> r.from <= r.delivered[i] < r.Next(v))
    && (forall i, j :: 0 <= i < j < |r.delivered| ==> r.delivered[i] < r.delivered[j])
  }

  /** Everything between registration and the next item is delivered, lost or dropped. */
  ghost predicate Balanced(r: Reader, v: View) {
    && r.from <= r.Next(v)
    && |r.delivered| + r.lost + r.dropped == r.Next(v) - r.from
    && InOrder(r, v)
  }

  ghost predicate AllBalanced(s: State) {
    forall k :: k in s.readers ==> Balanced(s.readers[k], s.view)
  }

  lemma ConsumeBalanced(r: Reader, v: View, n: nat)
    requires Balanced(r, v)
    ensures Balanced(r.Consume(v, n), v)
  {
    if n > 0 {
      var d, e := r.delivered, Range(r.Next(v), n);
      var r' := r.Consume(v, n);
      forall i | 0 <= i < |r'.delivered|
        ensures r.from <= r'.delivered[i] < r'.Next(v)
      {
        assert r'.delivered[i] == if i < |d| then d[i] else e[i - |d|];
      }
    }
  }

  lemma AdmitBalanced(s: State, items: seq<Item>)
    requires AllBalanced(s)
    ensures AllBalanced(s.Admit(items))
  {
    forall k | k in s.readers
      ensures Balanced(s.readers[k], s.Admit(items).view)
    {
      assert Balanced(s.readers[k], s.view);
    }
  }

  lemma ExpireBalanced(s: State, now: int)
    requires Reachable(s) && AllBalanced(s)
    ensures AllBalanced(s.Expire(now).0)
  {
    var t := s.Expire(now).0;
    forall k | k in t.readers
      ensures Balanced(t.readers[k], t.view)
    {
      assert Balanced(s.readers[k], s.view);
    }
  }

  lemma ClearBalanced(s: State)
    requires Reachable(s) && AllBalanced(s)
    ensures AllBalanced(s.Clear())
  {
    var t := s.Clear();
    forall k | k in t.readers
      ensures Balanced(t.readers[k], t.view)
    {
      assert Balanced(s.readers[k], s.view);
    }
  }

  lemma ShutBalanced(s: State)
    requires AllBalanced(s)
    ensures AllBalanced(s.Shut())
  {
    forall k | k in s.readers
      ensures Balanced(s.Shut().readers[k], s.view)
    {
      assert Balanced(s.readers[k], s.view);
    }
  }

  lemma OneReaderBalanced(s: State, k: Key, r: Reader)
    requires AllBalanced(s) && Balanced(r, s.view)
    ensures AllBalanced(s.(readers := s.readers[k := r]))
  {
    var rs := s.readers[k := r];
    forall j | j in rs
      ensures Balanced(rs[j], s.view)
    {
      assert j != k ==> Balanced(s.readers[j], s.view);
    }
  }

  lemma BatchBalanced(s: State, k: Key, limit: int)
    requires Reachable(s) && AllBalanced(s)
    ensures AllBalanced(s.ReadBatch(k, limit).0)
  {
    if !Blocked(s.readers, s.closed, k) {
      var n := Min(Max(limit, 0), s.readers[k].Unread(s.view));
      TakeIsPrefix(s.readers[k], s.view, Max(limit, 0), []);
      ConsumeBalanced(s.readers[k], s.view, n);
      OneReaderBalanced(s, k, s.readers[k].Consume(s.view, n));
    }
  }

  lemma WhereBalanced(s: State, k: Key, want: Item -> bool)
    requires Reachable(s) && AllBalanced(s)
    ensures AllBalanced(s.ReadWhere(k, want).0)
  {
    if !Blocked(s.readers, s.closed, k) && !k.Group? {
      var p := s.readers[k].Next(s.view);
      var n := Min(FirstMatch(s.view.log, p, want) + 1, |s.view.log|) - p;
      SeekIsFirstMatch(s.readers[k], s.view, want);
      ConsumeBalanced(s.readers[k], s.view, n);
      OneReaderBalanced(s, k, s.readers[k].Consume(s.view, n));
    }
  }

  lemma StepBalanced(s: State, op: Op)
    requires Reachable(s) && Legal(op) && AllBalanced(s)
    ensures AllBalanced(Step(s, op).0)
  {
    match op
    case TryEnqueue(item) => AdmitBalanced(s, [item]);
    case Enqueue(item) => AdmitBalanced(s, [item]);
    case TryEnqueueBatch(items) => AdmitBalanced(s, items);
    case EnqueueBatch(items) => AdmitBalanced(s, items);
    case Expire(now) => ExpireBalanced(s, now);
    case Read(k) => BatchBalanced(s, k, 1);
    case ReadBatch(k, limit) => BatchBalanced(s, k, limit);
    case ReadWhere(k, want) => WhereBalanced(s, k, want);
    case CloseFlag => ShutBalanced(s);
    case CloseClear => ClearBalanced(s);
    case _ =>
  }

  lemma {:induction false} RunBalanced(s: State, ops: seq<Op>)
    requires Reachable(s) && AllLegal(ops) && AllBalanced(s)
    ensures AllBalanced(Run(s, ops).0)
    decreases |ops|
  {
    if ops != [] {
      var n := |ops| - 1;
      RunBalanced(s, ops[..n]);
      StepBalanced(Run(s, ops[..n]).0, ops[n]);
    }
  }

  ghost predicate Keeps(ops: seq<Op>, k: Key) {
    forall i :: 0 <= i < |ops| ==> !(ops[i].RemoveReader? && ops[i].key == k)
  }

  lemma BatchKeepsFrom(s: State, j: Key, limit: int, k: Key)
    requires Reachable(s) && k in s.readers
    ensures
      var rs := s.ReadBatch(j, limit).0.readers;
      k in rs && rs[k].from == s.readers[k].from
  {
    if !Blocked(s.readers, s.closed, j) {
      TakeIsPrefix(s.readers[j], s.view, Max(limit, 0), []);
    }
  }

  lemma WhereKeepsFrom(s: State, j: Key, want: Item -> bool, k: Key)
    requires Reachable(s) && k in s.readers
    ensures
      var rs := s.ReadWhere(j, want).0.readers;
      k in rs && rs[k].from == s.readers[k].from
  {
    if !Blocked(s.readers, s.closed, j) {
      SeekIsFirstMatch(s.readers[j], s.view, want);
    }
  }

  lemma StepKeepsFrom(s: State, op: Op, k: Key)
    requires Reachable(s) && k in s.readers && !(op.RemoveReader? && op.key == k)
    ensures k in Step(s, op).0.readers && Step(s, op).0.readers[k].from == s.readers[k].from
  {
    match op
    case Read(j) => BatchKeepsFrom(s, j, 1, k);
    case ReadBatch(j, limit) => BatchKeepsFrom(s, j, limit, k);
    case ReadWhere(j, want) => WhereKeepsFrom(s, j, want, k);
    case _ =>
  }

  /** A reader that stays registered keeps its starting point. */
  lemma {:induction false} RunKeepsFrom(s: State, ops: seq<Op>, k: Key)
    requires Reachable(s) && AllLegal(ops) && k in s.readers && Keeps(ops, k)
    ensures k in Run(s, ops).0.readers && Run(s, ops).0.readers[k].from == s.readers[k].from
    decreases |ops|
  {
    if ops != [] {
      var n := |ops| - 1;
      RunKeepsFrom(s, ops[..n], k);
      StepKeepsFrom(Run(s, ops[..n]).0, ops[n], k);
    }
  }

  /** The books of a reader from its registration on. */
  lemma RegisteredRun(s: State, k: Key, after: seq<Op>)
    requires Reachable(s) && AllBalanced(s) && AllLegal(after) && Keeps(after, k)
    ensures Reachable(s.Register(k))
    ensures
      var t := Run(s.Register(k), after).0;
      && k in t.readers && Balanced(t.readers[k], t.view)
      && (k !in s.readers ==> t.readers[k].from == s.view.mark)
  {
    StepReachable(s, AddReader(k));
    StepBalanced(s, AddReader(k));
    RunBalanced(s.Register(k), after);
    RunKeepsFrom(s.Register(k), after, k);
  }

  /**
   Conservation: at every point of every run, what a reader got, what was reported to it
   as expired, what Close dropped and what is still unread add up to the items present
   when it registered plus the items enqueued since.
   */
  lemma Conservation(maxItems: int, maxMemory: int, ttl: int, before: seq<Op>, k: Key, after: seq<Op>)
    requires AllLegal(before) && AllLegal(after) && Keeps(after, k)
    ensures var s := Run(Initial(maxItems, maxMemory, ttl), before).0;
      Reachable(s.Register(k))
      && var t := Run(s.Register(k), after).0;
      k in t.readers
      && var r := t.readers[k];
      && InOrder(r, t.view)
      && (k !in s.readers ==>
            |r.delivered| + r.lost + r.dropped + r.Unread(t.view) == s.Count() + |t.view.log| - |s.view.log|)
  {
    var s := Run(Initial(maxItems, maxMemory, ttl), before).0;
    RunBalanced(Initial(maxItems, maxMemory, ttl), before);
    RegisteredRun(s, k, after);
  }

  lemma BalancedIsComplete(r: Reader, v: View)
    requires Balanced(r, v) && r.lost == 0 && r.dropped == 0
    ensures r.delivered == Range(r.from, r.Next(v) - r.from)
  {
    var n := |r.delivered|;
    var i := 0;
    while i < n
      invariant 0 <= i <= n
      invariant forall j :: 0 <= j < i ==> r.delivered[j] >= r.from + j
    {
      if i > 0 {
        assert r.delivered[i - 1] < r.delivered[i];
      }
      i := i + 1;
    }
    i := n;
    while i > 0
      invariant 0 <= i <= n
      invariant forall j :: i <= j < n ==> r.delivered[j] == r.from + j
    {
      i := i - 1;
      if i < n - 1 {
        assert r.delivered[i] < r.delivered[i + 1];
      }
    }
  }

  /** Nothing is missing between where a reader registered and where it will read next. */
  ghost predicate Complete(r: Reader, v: View, from: nat) {
    r.lost == 0 && r.dropped == 0 ==>
      r.Next(v) >= from && r.delivered == Range(from, r.Next(v) - from)
  }

  lemma CompleteFrom(s: State, k: Key, after: seq<Op>)
    requires Reachable(s) && AllBalanced(s) && AllLegal(after) && Keeps(after, k) && k !in s.readers
    ensures Reachable(s.Register(k))
    ensures
      var t := Run(s.Register(k), after).0;
      k in t.readers && Complete(t.readers[k], t.view, s.view.mark)
  {
    RegisteredRun(s, k, after);
    var t := Run(s.Register(k), after).0;
    if t.readers[k].lost == 0 && t.readers[k].dropped == 0 {
      BalancedIsComplete(t.readers[k], t.view);
    }
  }

  /** In every run, a reader that has lost nothing has got every item from the mark at its
      registration up to its next one, each exactly once and in order. */
  lemma NothingSkipped(maxItems: int, maxMemory: int, ttl: int, before: seq<Op>, k: Key, after: seq<Op>)
    requires AllLegal(before) && AllLegal(after) && Keeps(after, k)
    ensures var s := Run(Initial(maxItems, maxMemory, ttl), before).0;
      k !in s.readers ==>
        && Reachable(s.Register(k))
        && var t := Run(s.Register(k), after).0;
        k in t.readers && Complete(t.readers[k], t.view, s.view.mark)
  {
    RunBalanced(Initial(maxItems, maxMemory, ttl), before);
    var s := Run(Initial(maxItems, maxMemory, ttl), before).0;
    if k !in s.readers {
      CompleteFrom(s, k, after);
    }
  }
}
