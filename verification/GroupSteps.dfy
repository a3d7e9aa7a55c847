/**
 Reads as interleaved steps: any number of goroutines run TryRead against one cursor, that of
 a group or that of an independent consumer, while producers append and expiry passes trim
 the list.

 Members take the cursor's lock for the cursor and the queue's read lock for the first element
 and for Get; every other load is lock-free. Producers and passes hold the queue lock.
 */
module GroupSteps {
  import opened QueueTypes

  type Tid = nat

  /** A chunk, named by its creation number; slot `i` holds log position `base + i`. */
  datatype Chunk = Chunk(base: nat, size: nat, head: nat, pooled: bool, next: Option<nat>)

  /** The shared cursor: chunkElement and indexInChunk, or no position. */
  datatype Cur = Nil | At(k: nat, i: nat)

  /** The two TryReads differ in two steps: a group checks again that it has no position before
      it installs one, and skips expired slots one at a time; a consumer installs without a
      check and jumps to the head that it has loaded. */
  datatype Kind = OfGroup | OfConsumer

  /** Where a member is inside TryRead, with its local variables. */
  datatype PC =
    | Idle
    | InitFetch
    | InitHave(f: nat)
    | Loop
    | Snap(k: nat, i: nat)
    | SawPooled(k: nat)
    | Unpooled(k: nat, i: nat)
    | InSize(k: nat, i: nat)
    | Fetched(k: nat, i: nat, item: Item)
    | Missed(k: nat, i: nat)
    | Skip(k: nat, i: nat, to: nat)
    | AtEnd(k: nat, i: nat)
    | HaveNext(k: nat, i: nat, n: Option<nat>)

  /** A slot: its chunk and its index. */
  type Slot = (nat, nat)

  /** The holder of the queue lock, if any. A pass takes slots, then counts what the reader has
      lost by it, and then repairs the cursor. */
  datatype Lock = Free | Adding(item: Item) | Expiring(took: set<Slot>) | Repairing(took: set<Slot>)

  datatype Delivery = Delivery(who: Tid, k: nat, i: nat, item: Item)

  /** `last` is the latest position the cursor has had; the listed chunks are `front` on; `told`
      are the slots that the reader has been told it lost. */
  datatype State = State(
    kind: Kind, log: seq<Item>, chunks: seq<Chunk>, front: nat, lock: Lock,
    cursor: Cur, last: Cur, threads: map<Tid, PC>, delivered: seq<Delivery>, told: set<Slot>)
  {
    function PcOf(t: Tid): PC { if t in threads then threads[t] else Idle }

    function Goto(t: Tid, pc: PC): State { this.(threads := threads[t := pc]) }

    function Move(c: Cur): State { this.(cursor := c, last := if c.At? then c else last) }

    predicate Listed() { front < |chunks| }

    function Back(): Chunk
      requires Listed()
    {
      chunks[|chunks| - 1]
    }
  }

  datatype Action =
    | Member(t: Tid)
    | BeginEnqueue(item: Item)
    | Put
    | BeginPass
    | ExpireItem
    | DropChunk
    | Count
    | EndPass

  /** One step of a member; a step that its locks do not allow leaves the state alone. */
  function MemberStep(s: State, t: Tid): State {
    match s.PcOf(t)
    case Idle => s.Goto(t, if s.cursor.Nil? then InitFetch else Loop)
    case InitFetch =>
      if !s.lock.Free? then s
      else if s.Listed() then s.Goto(t, InitHave(s.front))
      else s.Goto(t, Idle)
    case InitHave(f) =>
      (if s.cursor.Nil? || s.kind.OfConsumer? then s.Move(At(f, 0)) else s).Goto(t, Loop)
    case Loop =>
      s.Goto(t, match s.cursor case Nil => Idle case At(k, i) => Snap(k, i))
    case Snap(k, i) =>
      if k >= |s.chunks| then s
      else s.Goto(t, if s.chunks[k].pooled then SawPooled(k) else Unpooled(k, i))
    case SawPooled(k) =>
      (if s.cursor.At? && s.cursor.k == k then s.Move(Nil) else s).Goto(t, Idle)
    case Unpooled(k, i) =>
      if k >= |s.chunks| then s
      else s.Goto(t, if i < s.chunks[k].size then InSize(k, i) else AtEnd(k, i))
    case InSize(k, i) =>
      if !s.lock.Free? || k >= |s.chunks| then s
      else
        var c := s.chunks[k];
        s.Goto(t, if c.head <= i < c.size && c.base + i < |s.log| then Fetched(k, i, s.log[c.base + i])
                  else Missed(k, i))
    case Fetched(k, i, item) =>
      if s.cursor == At(k, i) then
        s.Move(At(k, i + 1)).(delivered := s.delivered + [Delivery(t, k, i, item)]).Goto(t, Idle)
      else s.Goto(t, Loop)
    case Missed(k, i) =>
      if k >= |s.chunks| then s
      else
        var head := s.chunks[k].head;
        s.Goto(t, if i < head then Skip(k, i, if s.kind.OfGroup? then i + 1 else head) else Idle)
    case Skip(k, i, to) => (if s.cursor == At(k, i) then s.Move(At(k, to)) else s).Goto(t, Loop)
    case AtEnd(k, i) =>
      if k >= |s.chunks| then s else s.Goto(t, HaveNext(k, i, s.chunks[k].next))
    case HaveNext(k, i, n) =>
      (if s.cursor == At(k, i) && n.Some? then s.Move(At(n.value, 0)) else s)
      .Goto(t, if n.None? then Idle else Loop)
  }

  /** A producer takes the lock and makes sure that the back chunk has room. */
  function BeginEnqueueStep(s: State, item: Item): State {
    if !s.lock.Free? then s
    else if s.Listed() && s.Back().size < CHUNK_SIZE then s.(lock := Adding(item))
    else
      var n := |s.chunks|;
      var linked := if s.Listed() then s.chunks[n - 1 := s.Back().(next := Some(n))] else s.chunks;
      s.(lock := Adding(item), chunks := linked + [Chunk(|s.log|, 0, 0, false, None)])
  }

  /** It writes the slot, raises the size and releases the lock. */
  function PutStep(s: State): State {
    if s.lock.Adding? && s.Listed() then
      var n := |s.chunks| - 1;
      s.(lock := Free, log := s.log + [s.lock.item],
         chunks := s.chunks[n := s.chunks[n].(size := s.chunks[n].size + 1)])
    else s
  }

  function ExpireItemStep(s: State): State {
    if s.lock.Expiring? && s.Listed() && s.chunks[s.front].head < s.chunks[s.front].size then
      s.(chunks := s.chunks[s.front := s.chunks[s.front].(head := s.chunks[s.front].head + 1)],
         lock := Expiring(s.lock.took + {(s.front, s.chunks[s.front].head)}))
    else s
  }

  function DropChunkStep(s: State): State {
    if s.lock.Expiring? && s.Listed() && s.chunks[s.front].head == s.chunks[s.front].size then
      s.(chunks := s.chunks[s.front := s.chunks[s.front].(pooled := true)], front := s.front + 1)
    else s
  }

  predicate Before(k: nat, i: nat, k': nat, i': nat) { k < k' || (k == k' && i < i') }

  predicate Touched(took: set<Slot>, k: nat) { exists p :: p in took && p.0 == k }

  /** The slots that calculateExpiredCount counts for a cursor: all that the pass took when there
      is no position, and otherwise those at or after the cursor, if its own chunk lost any. */
  function Counted(c: Cur, took: set<Slot>): set<Slot> {
    match c
    case Nil => took
    case At(k, i) => if Touched(took, k) then set p | p in took && !Before(p.0, p.1, k, i) else {}
  }

  /** The manager looks at the cursor and tells the reader what it has lost. */
  function CountStep(s: State): State {
    if !s.lock.Expiring? || (s.Listed() && s.chunks[s.front].head == s.chunks[s.front].size) then s
    else s.(told := s.told + Counted(s.cursor, s.lock.took), lock := Repairing(s.lock.took))
  }

  /** The end of a pass repairs the cursor as UpdatePositionAfterExpiration does. */
  function EndPassStep(s: State): State {
    if !s.lock.Repairing? then s
    else
      var t := s.(lock := Free);
      if s.lock.took == {} || s.cursor.Nil? || s.cursor.k >= |s.chunks| then t
      else if !s.Listed() then t.Move(Nil)
      else if s.chunks[s.cursor.k].pooled then t.Move(At(s.front, 0))
      else if Touched(s.lock.took, s.cursor.k) && s.cursor.i < s.chunks[s.cursor.k].head then
        t.Move(At(s.cursor.k, s.chunks[s.cursor.k].head))
      else t
  }

  function Next(s: State, a: Action): State {
    match a
    case Member(t) => MemberStep(s, t)
    case BeginEnqueue(item) => BeginEnqueueStep(s, item)
    case Put => PutStep(s)
    case BeginPass => if s.lock.Free? then s.(lock := Expiring({})) else s
    case ExpireItem => ExpireItemStep(s)
    case DropChunk => DropChunkStep(s)
    case Count => CountStep(s)
    case EndPass => EndPassStep(s)
  }

  function Start(kind: Kind): State { State(kind, [], [], 0, Free, Nil, Nil, map[], [], {}) }

  /** The state after an interleaving. */
  function Run(s: State, acts: seq<Action>): State
    decreases |acts|
  {
    if acts == [] then s else Next(Run(s, acts[..|acts| - 1]), acts[|acts| - 1])
  }

  // ---------- the invariant ----------

  /** The cursor has been at `(k, i)` or beyond it. */
  ghost predicate Visited(s: State, k: nat, i: nat) {
    && k < |s.chunks| && i <= s.chunks[k].size
    && s.last.At? && !Before(s.last.k, s.last.i, k, i)
  }

  ghost predicate ChunkOk(c: Chunk, k: nat, chunks: nat, front: nat, logged: nat) {
    && c.head <= c.size <= CHUNK_SIZE && c.base + c.size <= logged
    && (c.pooled <==> k < front) && (c.pooled ==> c.head == c.size)
    && (c.next.Some? ==> c.next.value == k + 1 < chunks && c.size == CHUNK_SIZE)
  }

  /** A listed chunk is linked to its successor, and holds a live item unless it is being
      filled for the first time or emptied right now. */
  ghost predicate Healthy(c: Chunk, k: nat, chunks: nat, front: nat, lock: Lock) {
    && (k < chunks - 1 ==> c.next.Some?)
    && (c.head < c.size || (lock.Adding? && k == chunks - 1) || (lock.Expiring? && k == front))
  }

  ghost predicate ListOk(log: seq<Item>, chunks: seq<Chunk>, front: nat, lock: Lock) {
    && front <= |chunks|
    && (forall k :: 0 <= k < |chunks| ==> ChunkOk(chunks[k], k, |chunks|, front, |log|))
    && (front < |chunks| ==> chunks[|chunks| - 1].base + chunks[|chunks| - 1].size == |log|)
    && (lock.Adding? ==> front < |chunks| && chunks[|chunks| - 1].size < CHUNK_SIZE)
    && (forall k :: front <= k < |chunks| ==> Healthy(chunks[k], k, |chunks|, front, lock))
  }

  ghost predicate ChunksOk(s: State) { ListOk(s.log, s.chunks, s.front, s.lock) }

  ghost predicate Apart(chunks: seq<Chunk>, j: nat, k: nat)
    requires j < |chunks| && k < |chunks|
  {
    chunks[j].base + chunks[j].size <= chunks[k].base
  }

  /** Chunks hold consecutive stretches of the log. */
  ghost predicate Sequenced(chunks: seq<Chunk>) {
    forall j, k {:trigger Apart(chunks, j, k)} :: 0 <= j < k < |chunks| ==> Apart(chunks, j, k)
  }

  ghost predicate CursorOk(s: State) {
    && (s.last.At? ==> s.last.k < |s.chunks| && s.last.i <= s.chunks[s.last.k].size)
    && if s.cursor.At? then s.cursor == s.last else s.last.At? ==> s.last.k < s.front
  }

  /** Slot `(k, i)` has been written, with `item`. */
  ghost predicate Holds(s: State, k: nat, i: nat, item: Item) {
    && k < |s.chunks| && i < s.chunks[k].size
    && s.chunks[k].base + i < |s.log| && s.log[s.chunks[k].base + i] == item
  }

  ghost predicate PcOk(s: State, pc: PC) {
    match pc
    case Idle => true
    case InitFetch => true
    case InitHave(f) => f < |s.chunks| && f <= s.front
    case Loop => true
    case Snap(k, i) => Visited(s, k, i)
    case SawPooled(k) => k < s.front
    case Unpooled(k, i) => Visited(s, k, i)
    case InSize(k, i) => Visited(s, k, i)
    case Fetched(k, i, item) => Visited(s, k, i) && Holds(s, k, i, item)
    case Missed(k, i) => Visited(s, k, i)
    case Skip(k, i, to) => Visited(s, k, i) && i < to <= s.chunks[k].head
    case AtEnd(k, i) => Visited(s, k, i)
    case HaveNext(k, i, n) => Visited(s, k, i) && (n.Some? ==> s.chunks[k].next == n)
  }

  ghost predicate Behind(s: State, d: Delivery) {
    Holds(s, d.k, d.i, d.item) && s.last.At? && Before(d.k, d.i, s.last.k, s.last.i)
  }

  ghost predicate Earlier(ds: seq<Delivery>, x: nat, y: nat)
    requires x < |ds| && y < |ds|
  {
    Before(ds[x].k, ds[x].i, ds[y].k, ds[y].i)
  }

  ghost predicate InOrder(ds: seq<Delivery>) {
    forall x, y {:trigger Earlier(ds, x, y)} :: 0 <= x < y < |ds| ==> Earlier(ds, x, y)
  }

  /** What has been delivered lies behind the cursor, in order. */
  ghost predicate DeliveredOk(s: State) {
    (forall x :: 0 <= x < |s.delivered| ==> Behind(s, s.delivered[x])) && InOrder(s.delivered)
  }

  ghost predicate ThreadsOk(s: State) {
    forall t :: t in s.threads ==> PcOk(s, s.threads[t])
  }

  ghost predicate Inv(s: State) {
    ChunksOk(s) && Sequenced(s.chunks) && CursorOk(s) && DeliveredOk(s) && ThreadsOk(s)
  }

  /** The step installs a first element. */
  ghost predicate Installs(s: State, a: Action) {
    a.Member? && s.PcOf(a.t).InitHave? && (s.cursor.Nil? || s.kind.OfConsumer?)
  }

  /** It moves the cursor to or behind a place where it has already been. */
  ghost predicate StaleInstall(s: State, a: Action) {
    && Installs(s, a) && s.last.At?
    && var f := s.PcOf(a.t).f;
    !Before(s.last.k, s.last.i, f, 0) && s.cursor != At(f, 0)
  }

  ghost predicate ChunkGrows(c: Chunk, c': Chunk) {
    && c'.base == c.base && c'.size >= c.size && c'.head >= c.head
    && (c.next.Some? ==> c'.next == c.next)
  }

  /** Everything a thread or a delivery relies on survives when the state grows. */
  ghost predicate Grows(s: State, s': State) {
    && |s.chunks| <= |s'.chunks| && s.log <= s'.log && s.front <= s'.front
    && (forall k :: 0 <= k < |s.chunks| ==> ChunkGrows(s.chunks[k], s'.chunks[k]))
    && (s.last.At? ==> s'.last.At? && !Before(s'.last.k, s'.last.i, s.last.k, s.last.i))
  }

  lemma PcGrows(s: State, s': State, pc: PC)
    requires Grows(s, s') && PcOk(s, pc)
    ensures PcOk(s', pc)
  {
  }

  lemma ThreadsGrow(s: State, s': State)
    requires Grows(s, s') && ThreadsOk(s) && s'.threads == s.threads
    ensures ThreadsOk(s')
  {
    forall u | u in s'.threads
      ensures PcOk(s', s'.threads[u])
    {
      PcGrows(s, s', s.threads[u]);
    }
  }

  lemma ThreadMoves(s: State, s': State, t: Tid, pc: PC)
    requires Grows(s, s') && ThreadsOk(s) && s'.threads == s.threads[t := pc] && PcOk(s', pc)
    ensures ThreadsOk(s')
  {
    forall u | u in s'.threads
      ensures PcOk(s', s'.threads[u])
    {
      if u != t {
        PcGrows(s, s', s.threads[u]);
      }
    }
  }

  lemma Delivers(s: State, s': State, d: Delivery)
    requires DeliveredOk(s) && Grows(s, s')
    requires s'.delivered == s.delivered + [d] && Behind(s', d)
    requires s.last == At(d.k, d.i)
    ensures DeliveredOk(s')
  {
    forall x, y | 0 <= x < y < |s'.delivered|
      ensures Earlier(s'.delivered, x, y)
    {
      assert Behind(s, s.delivered[x]);
      assert y < |s.delivered| ==> Earlier(s.delivered, x, y);
    }
    forall x | 0 <= x < |s'.delivered|
      ensures Behind(s', s'.delivered[x])
    {
      assert x < |s.delivered| ==> Behind(s, s.delivered[x]);
    }
  }

  lemma DeliveredGrows(s: State, s': State)
    requires DeliveredOk(s) && Grows(s, s') && s'.delivered == s.delivered
    ensures DeliveredOk(s')
  {
    forall x | 0 <= x < |s'.delivered|
      ensures Behind(s', s'.delivered[x])
    {
      assert Behind(s, s.delivered[x]);
    }
  }

  /** The cursor may go on in the list, or to nothing once it has left the list behind. */
  lemma MoveOk(s: State, c: Cur)
    requires CursorOk(s)
    requires c.At? ==> c.k < |s.chunks| && c.i <= s.chunks[c.k].size
    requires c.At? && s.last.At? ==> !Before(c.k, c.i, s.last.k, s.last.i)
    requires c.Nil? && s.last.At? ==> s.last.k < s.front
    ensures CursorOk(s.Move(c)) && Grows(s, s.Move(c))
  {
  }

  /** The cursor and the list of `s'` are those of `s` with the cursor moved to `c`. */
  ghost predicate Moved(s: State, c: Cur, s': State) {
    && s'.cursor == s.Move(c).cursor && s'.last == s.Move(c).last
    && s'.chunks == s.chunks && s'.log == s.log && s'.front == s.front && s'.lock == s.lock
  }

  lemma MovedOk(s: State, c: Cur, s': State)
    requires CursorOk(s) && Moved(s, c, s')
    requires c.At? ==> c.k < |s.chunks| && c.i <= s.chunks[c.k].size
    requires c.At? && s.last.At? ==> !Before(c.k, c.i, s.last.k, s.last.i)
    requires c.Nil? && s.last.At? ==> s.last.k < s.front
    ensures CursorOk(s') && Grows(s, s')
  {
    MoveOk(s, c);
  }

  lemma InitMoves(s: State, t: Tid)
    requires ChunksOk(s) && CursorOk(s) && PcOk(s, s.PcOf(t)) && !StaleInstall(s, Member(t))
    requires s.PcOf(t).InitHave? || s.PcOf(t).SawPooled?
    ensures CursorOk(MemberStep(s, t)) && Grows(s, MemberStep(s, t))
  {
    match s.PcOf(t)
    case InitHave(f) =>
      if Installs(s, Member(t)) && s.cursor != At(f, 0) { MovedOk(s, At(f, 0), MemberStep(s, t)); }
    case SawPooled(k) =>
      if s.cursor.At? && s.cursor.k == k { MovedOk(s, Nil, MemberStep(s, t)); }
  }

  lemma ReadMoves(s: State, t: Tid)
    requires ChunksOk(s) && CursorOk(s) && PcOk(s, s.PcOf(t))
    requires s.PcOf(t).Fetched? || s.PcOf(t).Skip? || s.PcOf(t).HaveNext?
    ensures CursorOk(MemberStep(s, t)) && Grows(s, MemberStep(s, t))
  {
    var pc, s' := s.PcOf(t), MemberStep(s, t);
    assert ChunkOk(s.chunks[pc.k], pc.k, |s.chunks|, s.front, |s.log|);
    if s.cursor == At(pc.k, pc.i) {
      match pc
      case Fetched(k, i, item) => MovedOk(s, At(k, i + 1), s');
      case Skip(k, i, to) => MovedOk(s, At(k, to), s');
      case HaveNext(k, i, n) =>
        if n.Some? { MovedOk(s, At(n.value, 0), s'); }
    }
  }

  /** A member's step never touches the list; what it may do is move the cursor on. */
  lemma MemberMoves(s: State, t: Tid)
    requires ChunksOk(s) && CursorOk(s) && PcOk(s, s.PcOf(t)) && !StaleInstall(s, Member(t))
    ensures CursorOk(MemberStep(s, t)) && Grows(s, MemberStep(s, t))
  {
    var pc := s.PcOf(t);
    if pc.InitHave? || pc.SawPooled? {
      InitMoves(s, t);
    } else if pc.Fetched? || pc.Skip? || pc.HaveNext? {
      ReadMoves(s, t);
    }
  }

  lemma MemberPc(s: State, t: Tid)
    requires ChunksOk(s) && CursorOk(s) && PcOk(s, s.PcOf(t)) && !StaleInstall(s, Member(t))
    ensures
      var s' := MemberStep(s, t);
      s' == s || (s'.threads == s.threads[t := s'.PcOf(t)] && PcOk(s', s'.PcOf(t)))
  {
  }

  lemma MemberDelivers(s: State, t: Tid)
    requires ChunksOk(s) && CursorOk(s) && PcOk(s, s.PcOf(t)) && DeliveredOk(s)
    requires Grows(s, MemberStep(s, t))
    ensures DeliveredOk(MemberStep(s, t))
  {
    var s' := MemberStep(s, t);
    var pc := s.PcOf(t);
    if pc.Fetched? && s.cursor == At(pc.k, pc.i) {
      Delivers(s, s', Delivery(t, pc.k, pc.i, pc.item));
    } else {
      DeliveredGrows(s, s');
    }
  }

  lemma MemberLeavesList(s: State, t: Tid)
    ensures
      var s' := MemberStep(s, t);
      s'.chunks == s.chunks && s'.log == s.log && s'.front == s.front && s'.lock == s.lock
  {
  }

  lemma MemberKeeps(s: State, s': State, t: Tid)
    requires Inv(s) && Grows(s, s') && CursorOk(s') && DeliveredOk(s')
    requires s'.chunks == s.chunks && s'.log == s.log && s'.front == s.front && s'.lock == s.lock
    requires s' == s || (s'.threads == s.threads[t := s'.PcOf(t)] && PcOk(s', s'.PcOf(t)))
    ensures Inv(s')
  {
    if s' != s {
      ThreadMoves(s, s', t, s'.PcOf(t));
    }
  }

  lemma MemberStepKeeps(s: State, t: Tid)
    requires Inv(s) && !StaleInstall(s, Member(t))
    ensures Inv(MemberStep(s, t)) && Grows(s, MemberStep(s, t))
  {
    var s' := MemberStep(s, t);
    MemberMoves(s, t);
    MemberDelivers(s, t);
    MemberPc(s, t);
    MemberLeavesList(s, t);
    MemberKeeps(s, s', t);
  }

  /** A step that leaves the cursor alone keeps the invariant when it only grows the list. */
  lemma GrowthKeeps(s: State, s': State)
    requires Inv(s) && Grows(s, s') && ChunksOk(s') && Sequenced(s'.chunks)
    requires s'.cursor == s.cursor && s'.last == s.last
    requires s'.threads == s.threads && s'.delivered == s.delivered
    ensures Inv(s')
  {
    ThreadsGrow(s, s');
    DeliveredGrows(s, s');
  }

  lemma SequencedGrows(s: State, s': State)
    requires ChunksOk(s) && Sequenced(s.chunks)
    requires |s.chunks| <= |s'.chunks| <= |s.chunks| + 1
    requires forall k :: 0 <= k < |s.chunks| ==> s'.chunks[k].base == s.chunks[k].base
    requires forall k :: 0 <= k < |s.chunks| && k < |s'.chunks| - 1 ==> s'.chunks[k].size == s.chunks[k].size
    requires |s'.chunks| > |s.chunks| ==> s'.chunks[|s.chunks|].base == |s.log|
    ensures Sequenced(s'.chunks)
  {
    forall j, k | 0 <= j < k < |s'.chunks|
      ensures Apart(s'.chunks, j, k)
    {
      assert k < |s.chunks| ==> Apart(s.chunks, j, k);
    }
  }

  lemma BeginEnqueueGrows(s: State, item: Item)
    requires ChunksOk(s)
    ensures Grows(s, BeginEnqueueStep(s, item)) && ChunksOk(BeginEnqueueStep(s, item))
  {
  }

  lemma BeginEnqueueKeeps(s: State, item: Item)
    requires Inv(s)
    ensures Inv(BeginEnqueueStep(s, item)) && Grows(s, BeginEnqueueStep(s, item))
  {
    var s' := BeginEnqueueStep(s, item);
    BeginEnqueueGrows(s, item);
    SequencedGrows(s, s');
    GrowthKeeps(s, s');
  }

  lemma PutKeeps(s: State)
    requires Inv(s)
    ensures Inv(PutStep(s)) && Grows(s, PutStep(s))
  {
    var s' := PutStep(s);
    assert Grows(s, s') && ChunksOk(s');
    SequencedGrows(s, s');
    GrowthKeeps(s, s');
  }

  lemma ExpireItemKeeps(s: State)
    requires Inv(s)
    ensures Inv(ExpireItemStep(s)) && Grows(s, ExpireItemStep(s))
  {
    var s' := ExpireItemStep(s);
    assert Grows(s, s') && ChunksOk(s');
    SequencedGrows(s, s');
    GrowthKeeps(s, s');
  }

  lemma DropChunkKeeps(s: State)
    requires Inv(s)
    ensures Inv(DropChunkStep(s)) && Grows(s, DropChunkStep(s))
  {
    var s' := DropChunkStep(s);
    assert Grows(s, s') && ChunksOk(s');
    SequencedGrows(s, s');
    GrowthKeeps(s, s');
  }

  lemma CountKeeps(s: State)
    requires Inv(s)
    ensures Inv(CountStep(s)) && Grows(s, CountStep(s))
  {
    GrowthKeeps(s, CountStep(s));
  }

  /** Cursor repair moves the cursor forward, to a listed chunk or to nothing. */
  lemma EndPassMoves(s: State)
    requires ChunksOk(s) && CursorOk(s)
    ensures CursorOk(EndPassStep(s)) && Grows(s, EndPassStep(s))
  {
    var s' := EndPassStep(s);
    assert s'.chunks == s.chunks && s'.log == s.log && s'.front == s.front;
    if s.cursor.At? {
      assert ChunkOk(s.chunks[s.cursor.k], s.cursor.k, |s.chunks|, s.front, |s.log|);
    }
  }

  lemma EndPassLeavesList(s: State)
    requires ChunksOk(s)
    ensures
      var s' := EndPassStep(s);
      s'.chunks == s.chunks && ChunksOk(s') && s'.threads == s.threads && s'.delivered == s.delivered
  {
  }

  lemma RepairKeeps(s: State, s': State)
    requires Inv(s) && Grows(s, s') && CursorOk(s') && ChunksOk(s')
    requires s'.chunks == s.chunks && s'.threads == s.threads && s'.delivered == s.delivered
    ensures Inv(s')
  {
    ThreadsGrow(s, s');
    DeliveredGrows(s, s');
  }

  lemma EndPassKeeps(s: State)
    requires Inv(s)
    ensures Inv(EndPassStep(s)) && Grows(s, EndPassStep(s))
  {
    EndPassMoves(s);
    EndPassLeavesList(s);
    RepairKeeps(s, EndPassStep(s));
  }

  /** Every step that is not a stale install keeps the invariant and only grows the state. */
  lemma StepKeeps(s: State, a: Action)
    requires Inv(s) && !StaleInstall(s, a)
    ensures Inv(Next(s, a)) && Grows(s, Next(s, a))
  {
    match a
    case Member(t) => MemberStepKeeps(s, t);
    case BeginEnqueue(item) => BeginEnqueueKeeps(s, item);
    case Put => PutKeeps(s);
    case BeginPass => GrowthKeeps(s, Next(s, a));
    case ExpireItem => ExpireItemKeeps(s);
    case DropChunk => DropChunkKeeps(s);
    case Count => CountKeeps(s);
    case EndPass => EndPassKeeps(s);
  }
}
