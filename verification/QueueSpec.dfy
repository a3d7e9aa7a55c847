/** What every operation of the queue means on the log: no chunks, no pointers. */
module QueueSpec {
  import opened QueueTypes
  import opened LogView
  import opened Readers

  /** A read by `k` goes nowhere: removed, closed, or in a group of a closed queue. */
  predicate Blocked(readers: map<Key, Reader>, closed: bool, k: Key) {
    k !in readers || if k.Group? then closed else readers[k].closed
  }

  function BatchOf(readers: map<Key, Reader>, v: View, closed: bool, k: Key, limit: int)
    : (map<Key, Reader>, seq<Item>)
  {
    if Blocked(readers, closed, k) then (readers, [])
    else
      var (items, r) := Take(readers[k], v, Max(limit, 0), []);
      (readers[k := r], items)
  }

  function WhereOf(readers: map<Key, Reader>, v: View, closed: bool, k: Key, want: Item -> bool)
    : (map<Key, Reader>, Option<Item>, Option<Error>)
  {
    if k.Group? then (readers, None, Some(FilterNotSupported))
    else if Blocked(readers, closed, k) then (readers, None, None)
    else
      var (item, r) := Seek(readers[k], v, want);
      (readers[k := r], item, None)
  }

  function ExpireAll(readers: map<Key, Reader>, v: View, q: nat): map<Key, Reader> {
    map k | k in readers :: readers[k].Expire(v, q)
  }

  /** A pass over the log: the view and the readers after it, and the number of items removed. */
  function ExpireOf(readers: map<Key, Reader>, v: View, now: int, ttl: int): (View, map<Key, Reader>, nat)
    requires v.front <= v.mark <= |v.log|
  {
    var q := Surviving(v.log, v.mark, now, ttl);
    if q == v.mark then (v, readers, 0) else (v.Advance(q), ExpireAll(readers, v, q), q - v.mark)
  }

  function CloseAll(readers: map<Key, Reader>): map<Key, Reader> {
    map k | k in readers :: if k.Independent? then readers[k].(closed := true) else readers[k]
  }

  function DropAll(readers: map<Key, Reader>, v: View): map<Key, Reader> {
    map k | k in readers :: readers[k].Drop(v)
  }

  /** `biggest` is the size of the largest batch admitted so far. */
  datatype State = State(
    view: View, readers: map<Key, Reader>, closed: bool, cleared: bool,
    ttl: int, expiring: bool, maxItems: int, maxMemory: int, biggest: nat)
  {
    predicate Bounded() { view.front <= |view.log| && view.mark <= |view.log| }

    function Count(): int { |view.log| - view.mark }

    function Admit(items: seq<Item>): State {
      this.(view := view.Append(items), biggest := Max(biggest, |items|))
    }

    function TryEnqueue(item: Item): (State, Admission)
      requires Bounded()
    {
      if closed then (this, Rejected(QueueClosed))
      else if maxItems > 0 && Count() >= maxItems then (this, Rejected(QueueFull(maxItems)))
      else if view.Memory() + item.size > maxMemory then
        (this, Rejected(MemoryLimit(view.Memory(), maxMemory, item.size)))
      else (Admit([item]), Admitted)
    }

    /** One attempt of the blocking Enqueue. */
    function Enqueue(item: Item): (State, Admission)
      requires Bounded()
    {
      if closed then (this, Rejected(QueueClosed))
      else if item.size > maxMemory then
        (this, Rejected(MemoryLimit(view.Memory(), maxMemory, item.size)))
      else if maxItems > 0 && Count() >= maxItems then (this, Park)
      else if view.Memory() + item.size > maxMemory then (this, Park)
      else (Admit([item]), Admitted)
    }

    function TryEnqueueBatch(items: seq<Item>): (State, Admission)
      requires Bounded()
    {
      if closed then (this, Rejected(QueueClosed))
      else if items == [] then (this, Admitted)
      else if maxItems > 0 && Count() + |items| > maxItems then (this, Rejected(QueueFull(maxItems)))
      else if Bytes(items, 0) > MAX_INT64 then (this, Rejected(Overflow))
      else if view.Memory() + Bytes(items, 0) > maxMemory then
        (this, Rejected(MemoryLimit(view.Memory(), maxMemory, Bytes(items, 0))))
      else (Admit(items), Admitted)
    }

    /** One attempt of the blocking EnqueueBatch. */
    function EnqueueBatch(items: seq<Item>): (State, Admission)
      requires Bounded()
    {
      if closed then (this, Rejected(QueueClosed))
      else if items == [] then (this, Admitted)
      else if Bytes(items, 0) > MAX_INT64 then (this, Rejected(Overflow))
      else if maxItems > 0 && |items| > maxItems then (this, Rejected(QueueFull(maxItems)))
      else if maxItems > 0 && Count() + |items| > maxItems then (this, Park)
      else if Bytes(items, 0) > maxMemory then
        (this, Rejected(MemoryLimit(view.Memory(), maxMemory, Bytes(items, 0))))
      else if view.Memory() + Bytes(items, 0) <= maxMemory then (Admit(items), Admitted)
      else (this, Park)
    }

    /** The expiry pass at time `now`; the count is the number of items removed. */
    function Expire(now: int): (State, nat)
      requires Bounded() && view.front <= view.mark
    {
      if !expiring then (this, 0)
      else
        var (v, rs, n) := ExpireOf(readers, view, now, ttl);
        (this.(view := v, readers := rs), n)
    }

    /** AddConsumer and AddGroup: a reader starts at the oldest item; a known key stays. */
    function Register(k: Key): State {
      if k in readers then this else this.(readers := readers[k := NewReader(view)])
    }

    function Remove(k: Key): State { this.(readers := readers - {k}) }

    function ReadBatch(k: Key, limit: int): (State, seq<Item>) {
      var (rs, items) := BatchOf(readers, view, closed, k, limit);
      (this.(readers := rs), items)
    }

    function ReadWhere(k: Key, want: Item -> bool): (State, Option<Item>, Option<Error>) {
      var (rs, item, error) := WhereOf(readers, view, closed, k, want);
      (this.(readers := rs), item, error)
    }

    /** First half of Close: the flag is set and every independent consumer is closed. */
    function Shut(): State {
      if closed then this
      else this.(closed := true, readers := CloseAll(readers))
    }

    /** Second half of Close: the list is cleared. */
    function Clear(): State
      requires Bounded()
    {
      if !closed || cleared then this
      else this.(view := view.Advance(|view.log|), cleared := true, readers := DropAll(readers, view))
    }
  }

  datatype Op =
    | TryEnqueue(item: Item)
    | Enqueue(item: Item)
    | TryEnqueueBatch(items: seq<Item>)
    | EnqueueBatch(items: seq<Item>)
    | Expire(now: int)
    | AddReader(key: Key)
    | RemoveReader(key: Key)
    | Read(key: Key)
    | ReadBatch(key: Key, limit: int)
    | ReadWhere(key: Key, want: Item -> bool)
    | MemoryUsage
    | TotalItems
    | SetTTL(ttl: int)
    | SetExpiration(on: bool)
    | CloseFlag
    | CloseClear

  datatype Output =
    | Enqueued(admission: Admission)
    | Removed(count: nat)
    | Items(items: seq<Item>)
    | Found(item: Option<Item>, error: Option<Error>)
    | Number(n: int)
    | Done

  predicate Legal(op: Op) {
    match op
    case TryEnqueue(item) => Sized(item)
    case Enqueue(item) => Sized(item)
    case TryEnqueueBatch(items) => AllSized(items)
    case EnqueueBatch(items) => AllSized(items)
    case _ => true
  }

  /** What holds of every reachable state. */
  ghost predicate Reachable(s: State) {
    && s.view.Ok() && (s.cleared ==> s.closed && s.view.mark == |s.view.log|)
    && forall k :: k in s.readers ==> s.readers[k].offset <= |s.view.log|
  }

  function Step(s: State, op: Op): (State, Output)
    requires Reachable(s)
  {
    match op
    case TryEnqueue(item) => var (t, a) := s.TryEnqueue(item); (t, Enqueued(a))
    case Enqueue(item) => var (t, a) := s.Enqueue(item); (t, Enqueued(a))
    case TryEnqueueBatch(items) => var (t, a) := s.TryEnqueueBatch(items); (t, Enqueued(a))
    case EnqueueBatch(items) => var (t, a) := s.EnqueueBatch(items); (t, Enqueued(a))
    case Expire(now) => var (t, n) := s.Expire(now); (t, Removed(n))
    case AddReader(k) => (s.Register(k), Done)
    case RemoveReader(k) => (s.Remove(k), Done)
    case Read(k) => var (t, items) := s.ReadBatch(k, 1); (t, Items(items))
    case ReadBatch(k, limit) => var (t, items) := s.ReadBatch(k, limit); (t, Items(items))
    case ReadWhere(k, want) => var (t, item, error) := s.ReadWhere(k, want); (t, Found(item, error))
    case MemoryUsage => (s, Number(s.view.Memory()))
    case TotalItems => (s, Number(s.Count()))
    case SetTTL(ttl) => (s.(ttl := ttl), Done)
    case SetExpiration(on) => (s.(expiring := on), Done)
    case CloseFlag => (s.Shut(), Done)
    case CloseClear => (s.Clear(), Done)
  }

  function Initial(maxItems: int, maxMemory: int, ttl: int): State {
    State(View([], 0, 0), map[], false, false, ttl, ttl > 0, maxItems,
          if maxMemory <= 0 then DEFAULT_MAX_MEMORY else maxMemory, 0)
  }

  lemma AdvanceOk(v: View, q: nat)
    requires v.Ok() && v.mark <= q <= |v.log|
    ensures v.Advance(q).Ok()
  {
  }

  lemma AdmitReachable(s: State, items: seq<Item>)
    requires Reachable(s) && !s.closed && AllSized(items) && items != []
    ensures Reachable(s.Admit(items))
  {
  }

  lemma ReadReachable(s: State, k: Key, limit: int, want: Item -> bool)
    requires Reachable(s)
    ensures Reachable(s.ReadBatch(k, limit).0) && Reachable(s.ReadWhere(k, want).0)
  {
    if !Blocked(s.readers, s.closed, k) {
      TakeIsPrefix(s.readers[k], s.view, Max(limit, 0), []);
      SeekIsFirstMatch(s.readers[k], s.view, want);
    }
  }

  lemma ExpireReachable(s: State, now: int)
    requires Reachable(s)
    ensures Reachable(s.Expire(now).0)
  {
    AdvanceOk(s.view, Surviving(s.view.log, s.view.mark, now, s.ttl));
  }

  lemma StepReachable(s: State, op: Op)
    requires Reachable(s) && Legal(op)
    ensures Reachable(Step(s, op).0)
  {
    match op
    case TryEnqueue(item) =>
      if Step(s, op).0 != s { AdmitReachable(s, [item]); }
    case Enqueue(item) =>
      if Step(s, op).0 != s { AdmitReachable(s, [item]); }
    case TryEnqueueBatch(items) =>
      if Step(s, op).0 != s { AdmitReachable(s, items); }
    case EnqueueBatch(items) =>
      if Step(s, op).0 != s { AdmitReachable(s, items); }
    case Expire(now) =>
      ExpireReachable(s, now);
    case Read(k) =>
      ReadReachable(s, k, 1, _ => true);
    case ReadBatch(k, limit) =>
      ReadReachable(s, k, limit, _ => true);
    case ReadWhere(k, want) =>
      ReadReachable(s, k, 1, want);
    case CloseClear =>
      AdvanceOk(s.view, |s.view.log|);
    case _ =>
  }

  ghost predicate AllLegal(ops: seq<Op>) {
    forall i :: 0 <= i < |ops| ==> Legal(ops[i])
  }

  /** The state and the outputs after a run. */
  function Run(s: State, ops: seq<Op>): (r: (State, seq<Output>))
    requires Reachable(s) && AllLegal(ops)
    ensures Reachable(r.0) && |r.1| == |ops|
    decreases |ops|
  {
    if ops == [] then (s, [])
    else
      var n := |ops| - 1;
      var (t, outs) := Run(s, ops[..n]);
      var (u, out) := Step(t, ops[n]);
      StepReachable(t, ops[n]);
      (u, outs + [out])
  }
}
