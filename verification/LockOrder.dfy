/**
 The locks of the queue package and the order in which its operations take them.

 Threads run sequences of operations, each an acquire/release sequence. Read-write locks
 behave as Go's: a writer first announces itself, which keeps new readers and writers out,
 and then waits for the readers that are inside.
 */
module LockOrder {

  /** A cursor lock is the mutex of a consumer or of a group. */
  datatype Lock = QueueLock | ManagerLock | CursorLock(id: nat) | ChunkLock(id: nat)

  datatype Mode = Shared | Exclusive

  function Rank(l: Lock): nat {
    match l
    case QueueLock => 0
    case ManagerLock => 1
    case CursorLock(_) => 2
    case ChunkLock(_) => 3
  }

  // ---------- programs ----------

  /** Bracketed lock use; Join waits for another thread to end. */
  datatype Prog =
    | Done
    | Under(lock: Lock, mode: Mode, body: Prog, next: Prog)
    | Join(thread: nat, next: Prog)

  function Then(p: Prog, q: Prog): Prog {
    match p
    case Done => q
    case Under(l, m, body, next) => Under(l, m, body, Then(next, q))
    case Join(t, next) => Join(t, Then(next, q))
  }

  /** Every lock is taken while only locks of lower rank are held, and only the goroutines
      in `joinable` are waited for, with no lock in hand. */
  predicate Ordered(p: Prog, floor: nat, joinable: set<nat>) {
    match p
    case Done => true
    case Under(l, _, body, next) =>
      floor <= Rank(l) && Ordered(body, Rank(l) + 1, joinable) && Ordered(next, floor, joinable)
    case Join(t, next) => floor == 0 && t in joinable && Ordered(next, floor, joinable)
  }

  lemma ThenOrdered(p: Prog, q: Prog, floor: nat, js: set<nat>)
    requires Ordered(p, floor, js) && Ordered(q, floor, js)
    ensures Ordered(Then(p, q), floor, js)
  {
  }

  /** Take and release one cursor lock, then go on. */
  function Touch(c: nat, next: Prog): Prog { Under(CursorLock(c), Exclusive, Done, next) }

  // ---------- the operations ----------

  /** One round of the loop in TryRead, by the branch it takes. */
  datatype Turn =
    | Nothing
    | Pooled
    | Fetch(chunk: nat, commit: bool)
    | NextChunk

  /** A chunk swept by an expiry pass; `looked` when its earliest item is inspected. */
  datatype Sweep = Sweep(chunk: nat, looked: bool)

  /** A cursor visited by a pass or by the eviction of idle consumers; `told` when that takes
      its lock once more. */
  datatype Visit = Visit(cursor: nat, told: bool)

  datatype Op =
    | EnqueueAttempt(adds: seq<nat>)
    | TryRead(cursor: nat, init: bool, found: bool, turns: seq<Turn>)
    | HasMoreData(cursor: nat)
    | GetUnreadCount(cursor: nat, gets: seq<nat>)
    | AddConsumer(cursor: nat, found: bool)
    | AddGroup
    | GetConsumerCount
    | RemoveReaders(cursors: seq<nat>)
    | CleanInactive(consumers: seq<Visit>, groups: seq<nat>)
    | Cleanup(sweeps: seq<Sweep>, expired: bool, visits: seq<Visit>)
    | Configure(mode: Mode)
    | Close(worker: nat, cursors: seq<nat>)

  function TouchAll(cs: seq<nat>): Prog {
    if cs == [] then Done else Touch(cs[0], TouchAll(cs[1..]))
  }

  function ChunksIn(ks: seq<nat>, mode: Mode): Prog {
    if ks == [] then Done else Under(ChunkLock(ks[0]), mode, Done, ChunksIn(ks[1..], mode))
  }

  function TurnsOf(c: nat, turns: seq<Turn>): Prog {
    if turns == [] then Done
    else
      var rest := TurnsOf(c, turns[1..]);
      Touch(c,
        match turns[0]
        case Nothing => rest
        case Pooled => Touch(c, rest)
        case Fetch(k, commit) =>
          Under(QueueLock, Shared, Under(ChunkLock(k), Shared, Done, Done), if commit then Touch(c, rest) else rest)
        case NextChunk => Touch(c, rest))
  }

  /** Each cursor `n` times in a row, and once more when it is told something. */
  function Visited(vs: seq<Visit>, n: nat): seq<nat> {
    if vs == [] then []
    else seq(if vs[0].told then n + 1 else n, _ => vs[0].cursor) + Visited(vs[1..], n)
  }

  function Sweeps(ss: seq<Sweep>): Prog {
    if ss == [] then Done
    else
      Under(ChunkLock(ss[0].chunk), Exclusive, Done,
            if ss[0].looked then Under(ChunkLock(ss[0].chunk), Shared, Done, Sweeps(ss[1..]))
            else Sweeps(ss[1..]))
  }

  /** NotifyAllConsumersOfExpiration, when anything expired. */
  function Telling(expired: bool, vs: seq<Visit>): Prog {
    if expired then Under(ManagerLock, Shared, TouchAll(Visited(vs, 2)), Done) else Done
  }

  function ProgOf(op: Op): Prog {
    match op
    case EnqueueAttempt(adds) => Under(QueueLock, Exclusive, ChunksIn(adds, Exclusive), Done)
    case TryRead(c, init, found, turns) =>
      Touch(c,
        if !init then TurnsOf(c, turns)
        else Under(QueueLock, Shared, Done, if found then Touch(c, TurnsOf(c, turns)) else Done))
    case HasMoreData(c) => Touch(c, Done)
    case GetUnreadCount(c, gets) => Under(QueueLock, Shared, Touch(c, ChunksIn(gets, Shared)), Done)
    case AddConsumer(c, found) =>
      Under(QueueLock, Shared, Under(ManagerLock, Exclusive, if found then Touch(c, Done) else Done, Done), Done)
    case AddGroup => Under(ManagerLock, Exclusive, Done, Done)
    case GetConsumerCount => Under(ManagerLock, Shared, Done, Done)
    case RemoveReaders(cs) => Under(ManagerLock, Exclusive, TouchAll(cs), Done)
    case CleanInactive(cs, gs) => Under(ManagerLock, Exclusive, Then(TouchAll(Visited(cs, 1)), TouchAll(gs)), Done)
    case Cleanup(sweeps, expired, vs) =>
      Under(QueueLock, Exclusive, Then(Sweeps(sweeps), Telling(expired, vs)), Done)
    case Configure(mode) => Under(QueueLock, mode, Done, Done)
    case Close(w, cs) => Join(w, Then(TouchAll(cs), Under(QueueLock, Exclusive, Done, Done)))
  }

  /** What one goroutine does: operations one after the other. */
  function Goroutine(ops: seq<Op>): Prog {
    if ops == [] then Done else Then(ProgOf(ops[0]), Goroutine(ops[1..]))
  }

  lemma BriefOrdered(l: Lock, m: Mode, next: Prog, floor: nat, js: set<nat>)
    requires floor <= Rank(l) && Ordered(next, floor, js)
    ensures Ordered(Under(l, m, Done, next), floor, js)
  {
    assert Ordered(Done, Rank(l) + 1, js);
  }

  lemma TouchOrdered(c: nat, next: Prog, floor: nat, js: set<nat>)
    requires floor <= 2 && Ordered(next, floor, js)
    ensures Ordered(Touch(c, next), floor, js)
  {
    BriefOrdered(CursorLock(c), Exclusive, next, floor, js);
  }

  lemma TouchAllOrdered(cs: seq<nat>, floor: nat, js: set<nat>)
    requires floor <= 2
    ensures Ordered(TouchAll(cs), floor, js)
  {
  }

  lemma ChunksInOrdered(ks: seq<nat>, mode: Mode, floor: nat, js: set<nat>)
    requires floor <= 3
    ensures Ordered(ChunksIn(ks, mode), floor, js)
  {
  }

  lemma SweepsOrdered(ss: seq<Sweep>, floor: nat, js: set<nat>)
    requires floor <= 3
    ensures Ordered(Sweeps(ss), floor, js)
  {
  }

  lemma {:induction false} TurnsOrdered(c: nat, turns: seq<Turn>, js: set<nat>)
    ensures Ordered(TurnsOf(c, turns), 0, js)
  {
    if turns != [] {
      TurnsOrdered(c, turns[1..], js);
      TouchOrdered(c, TurnsOf(c, turns[1..]), 0, js);
      if turns[0].Fetch? {
        BriefOrdered(ChunkLock(turns[0].chunk), Shared, Done, 1, js);
      }
    }
  }

  /** Every operation takes its locks in rank order, whatever branches it takes and however
      many chunks, consumers and groups it visits. */
  lemma OpOrdered(op: Op, js: set<nat>)
    requires op.Close? ==> op.worker in js
    ensures Ordered(ProgOf(op), 0, js)
  {
    match op
    case EnqueueAttempt(adds) => ChunksInOrdered(adds, Exclusive, 1, js);
    case TryRead(c, init, found, turns) =>
      TurnsOrdered(c, turns, js);
      TouchOrdered(c, TurnsOf(c, turns), 0, js);
    case GetUnreadCount(c, gets) => ChunksInOrdered(gets, Shared, 1, js);
    case RemoveReaders(cs) => TouchAllOrdered(cs, 2, js);
    case CleanInactive(cs, gs) =>
      TouchAllOrdered(Visited(cs, 1), 2, js);
      TouchAllOrdered(gs, 2, js);
      ThenOrdered(TouchAll(Visited(cs, 1)), TouchAll(gs), 2, js);
    case Cleanup(sweeps, expired, vs) =>
      SweepsOrdered(sweeps, 1, js);
      TouchAllOrdered(Visited(vs, 2), 2, js);
      ThenOrdered(Sweeps(sweeps), Telling(expired, vs), 1, js);
    case Close(w, cs) =>
      TouchAllOrdered(cs, 0, js);
      ThenOrdered(TouchAll(cs), Under(QueueLock, Exclusive, Done, Done), 0, js);
    case HasMoreData(c) =>
    case AddConsumer(c, found) => TouchOrdered(c, Done, 2, js);
    case AddGroup =>
    case GetConsumerCount =>
    case Configure(mode) =>
  }

  lemma {:induction false} GoroutineOrdered(ops: seq<Op>, js: set<nat>)
    requires forall i :: 0 <= i < |ops| && ops[i].Close? ==> ops[i].worker in js
    ensures Ordered(Goroutine(ops), 0, js)
  {
    if ops != [] {
      OpOrdered(ops[0], js);
      GoroutineOrdered(ops[1..], js);
      ThenOrdered(ProgOf(ops[0]), Goroutine(ops[1..]), 0, js);
    }
  }

  // ---------- which locks an operation uses ----------

  /** The program takes lock `l` in mode `m` somewhere. */
  predicate Takes(p: Prog, l: Lock, m: Mode) {
    match p
    case Done => false
    case Under(l', m', body, next) => (l == l' && m == m') || Takes(body, l, m) || Takes(next, l, m)
    case Join(_, next) => Takes(next, l, m)
  }

  lemma ThenTakes(p: Prog, q: Prog, l: Lock, m: Mode)
    ensures Takes(Then(p, q), l, m) <==> Takes(p, l, m) || Takes(q, l, m)
  {
  }

  lemma {:induction false} TouchAllTakes(cs: seq<nat>, l: Lock, m: Mode)
    ensures Takes(TouchAll(cs), l, m) <==> l.CursorLock? && l.id in cs && m == Exclusive
  {
    if cs != [] {
      TouchAllTakes(cs[1..], l, m);
      assert cs == [cs[0]] + cs[1..];
    }
  }

  lemma {:induction false} ChunksInTakes(ks: seq<nat>, mode: Mode, l: Lock, m: Mode)
    ensures Takes(ChunksIn(ks, mode), l, m) <==> l.ChunkLock? && l.id in ks && m == mode
  {
    if ks != [] {
      ChunksInTakes(ks[1..], mode, l, m);
      assert ks == [ks[0]] + ks[1..];
    }
  }

  /** A chunk is swept under its write lock, and looked at once more under its read lock. */
  ghost predicate SweptWith(ss: seq<Sweep>, l: Lock, m: Mode) {
    l.ChunkLock? && exists x :: x in ss && x.chunk == l.id && (m == Exclusive || x.looked)
  }

  lemma {:induction false} SweepsTakes(ss: seq<Sweep>, l: Lock, m: Mode)
    ensures Takes(Sweeps(ss), l, m) <==> SweptWith(ss, l, m)
  {
    if ss != [] {
      SweepsTakes(ss[1..], l, m);
      assert ss == [ss[0]] + ss[1..];
      assert Takes(Sweeps(ss), l, m) <==>
        (l == ChunkLock(ss[0].chunk) && (m == Exclusive || ss[0].looked)) || Takes(Sweeps(ss[1..]), l, m);
    }
  }

  lemma {:induction false} VisitedHas(vs: seq<Visit>, n: nat, c: nat)
    requires n > 0
    ensures c in Visited(vs, n) <==> exists v :: v in vs && v.cursor == c
  {
    if vs != [] {
      VisitedHas(vs[1..], n, c);
      var first := seq(if vs[0].told then n + 1 else n, _ => vs[0].cursor);
      assert first[0] == vs[0].cursor && forall i :: 0 <= i < |first| ==> first[i] == vs[0].cursor;
      assert c in first <==> vs[0].cursor == c;
      assert vs == [vs[0]] + vs[1..];
    }
  }

  /** One round takes the cursor's lock, and to fetch a slot the queue's and the chunk's for reading. */
  ghost predicate TurnTakes(c: nat, turns: seq<Turn>, l: Lock, m: Mode) {
    || (turns != [] && l == CursorLock(c) && m == Exclusive)
    || (m == Shared && l.QueueLock? && exists x :: x in turns && x.Fetch?)
    || (m == Shared && l.ChunkLock? && exists x :: x in turns && x.Fetch? && x.chunk == l.id)
  }

  lemma {:induction false} TurnsTakes(c: nat, turns: seq<Turn>, l: Lock, m: Mode)
    ensures Takes(TurnsOf(c, turns), l, m) <==> TurnTakes(c, turns, l, m)
  {
    if turns != [] {
      var rest := TurnsOf(c, turns[1..]);
      TurnsTakes(c, turns[1..], l, m);
      assert turns == [turns[0]] + turns[1..];
      assert Takes(Touch(c, rest), l, m) <==> (l == CursorLock(c) && m == Exclusive) || Takes(rest, l, m);
      if turns[0].Fetch? {
        var inner := Under(ChunkLock(turns[0].chunk), Shared, Done, Done);
        assert Takes(inner, l, m) <==> l == ChunkLock(turns[0].chunk) && m == Shared;
      }
    }
  }

  /** Who takes what: writers of the list its write lock, readers its read lock; the registry is
      changed under the manager's write lock and read under its read lock; cursors and chunks are
      locked only by those who touch them. */
  ghost predicate Expected(op: Op, l: Lock, m: Mode) {
    match op
    case EnqueueAttempt(adds) => m == Exclusive && (l == QueueLock || (l.ChunkLock? && l.id in adds))
    case TryRead(c, init, found, turns) =>
      || (l == CursorLock(c) && m == Exclusive)
      || (init && l == QueueLock && m == Shared)
      || ((!init || found) && TurnTakes(c, turns, l, m))
    case HasMoreData(c) => l == CursorLock(c) && m == Exclusive
    case GetUnreadCount(c, gets) =>
      || (l == CursorLock(c) && m == Exclusive)
      || (m == Shared && (l == QueueLock || (l.ChunkLock? && l.id in gets)))
    case AddConsumer(c, found) =>
      || (l == QueueLock && m == Shared)
      || (m == Exclusive && (l == ManagerLock || (found && l == CursorLock(c))))
    case AddGroup => l == ManagerLock && m == Exclusive
    case GetConsumerCount => l == ManagerLock && m == Shared
    case RemoveReaders(cs) => m == Exclusive && (l == ManagerLock || (l.CursorLock? && l.id in cs))
    case CleanInactive(cs, gs) =>
      && m == Exclusive
      && (l == ManagerLock || (l.CursorLock? && (l.id in gs || exists v :: v in cs && v.cursor == l.id)))
    case Cleanup(sweeps, expired, vs) =>
      || (l == QueueLock && m == Exclusive) || SweptWith(sweeps, l, m)
      || (expired && l == ManagerLock && m == Shared)
      || (expired && l.CursorLock? && m == Exclusive && exists v :: v in vs && v.cursor == l.id)
    case Configure(mode) => l == QueueLock && m == mode
    case Close(_, cs) => m == Exclusive && (l == QueueLock || (l.CursorLock? && l.id in cs))
  }

  /** Every operation uses exactly these locks. */
  lemma FootprintLaw(op: Op, l: Lock, m: Mode)
    ensures Takes(ProgOf(op), l, m) <==> Expected(op, l, m)
  {
    match op
    case EnqueueAttempt(adds) => ChunksInTakes(adds, Exclusive, l, m);
    case TryRead(c, init, found, turns) =>
      TurnsTakes(c, turns, l, m);
      assert Takes(Touch(c, TurnsOf(c, turns)), l, m)
        <==> (l == CursorLock(c) && m == Exclusive) || Takes(TurnsOf(c, turns), l, m);
      var rest := if found then Touch(c, TurnsOf(c, turns)) else Done;
      assert Takes(Under(QueueLock, Shared, Done, rest), l, m)
        <==> (l == QueueLock && m == Shared) || Takes(rest, l, m);
    case GetUnreadCount(c, gets) =>
      ChunksInTakes(gets, Shared, l, m);
      assert Takes(Touch(c, ChunksIn(gets, Shared)), l, m)
        <==> (l == CursorLock(c) && m == Exclusive) || Takes(ChunksIn(gets, Shared), l, m);
    case RemoveReaders(cs) => TouchAllTakes(cs, l, m);
    case CleanInactive(cs, gs) =>
      ThenTakes(TouchAll(Visited(cs, 1)), TouchAll(gs), l, m);
      TouchAllTakes(Visited(cs, 1), l, m);
      TouchAllTakes(gs, l, m);
      if l.CursorLock? { VisitedHas(cs, 1, l.id); }
    case Cleanup(sweeps, expired, vs) =>
      ThenTakes(Sweeps(sweeps), Telling(expired, vs), l, m);
      SweepsTakes(sweeps, l, m);
      TouchAllTakes(Visited(vs, 2), l, m);
      if l.CursorLock? { VisitedHas(vs, 2, l.id); }
    case Close(w, cs) =>
      ThenTakes(TouchAll(cs), Under(QueueLock, Exclusive, Done, Done), l, m);
      TouchAllTakes(cs, l, m);
    case AddConsumer(c, found) =>
      var inner := if found then Touch(c, Done) else Done;
      assert Takes(inner, l, m) <==> found && l == CursorLock(c) && m == Exclusive;
      assert Takes(Under(ManagerLock, Exclusive, inner, Done), l, m)
        <==> (l == ManagerLock && m == Exclusive) || Takes(inner, l, m);
    case HasMoreData(c) =>
    case AddGroup =>
    case GetConsumerCount =>
    case Configure(mode) =>
  }
}
