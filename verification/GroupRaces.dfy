/**
 Two interleavings that the read protocol allows: a stale install through which one
 item reaches two members, and a hasty advance that passes over 999 unread items.
 */
module GroupRaces {
  import opened QueueTypes
  import opened GroupSteps
  import opened GroupTheorems

  /** Some run ends in `s`; a clean one has no stale install. */
  ghost predicate Reached(s: State, clean: bool) {
    exists acts :: Run(Start(s.kind), acts) == s && (clean ==> NoStaleInstall(s.kind, acts))
  }

  lemma Begins(kind: Kind)
    ensures Reached(Start(kind), true)
  {
    assert Run(Start(kind), []) == Start(kind);
  }

  lemma StaysClean(s: State, acts: seq<Action>, a: Action)
    requires Run(Start(s.kind), acts) == s && NoStaleInstall(s.kind, acts) && !StaleInstall(s, a)
    ensures NoStaleInstall(s.kind, acts + [a])
  {
    var more := acts + [a];
    forall n | 0 <= n < |more|
      ensures !StaleAt(s.kind, more, n)
    {
      assert more[..n] == acts[..n] && acts[..|acts|] == acts;
      assert n < |acts| ==> !StaleAt(s.kind, acts, n);
    }
  }

  lemma Goes(s: State, a: Action, clean: bool)
    requires Reached(s, clean) && (clean ==> !StaleInstall(s, a))
    ensures Reached(Next(s, a), clean)
  {
    var acts :| Run(Start(s.kind), acts) == s && (clean ==> NoStaleInstall(s.kind, acts));
    var more := acts + [a];
    assert more[..|more| - 1] == acts;
    assert Run(Start(s.kind), more) == Next(s, a);
    NextKind(s, a);
    if clean {
      StaysClean(s, acts, a);
    }
  }

  // ---------- building blocks ----------

  ghost function Copies(x: Item, n: nat): (items: seq<Item>)
    ensures |items| == n && forall i :: 0 <= i < n ==> items[i] == x
  {
    if n == 0 then [] else Copies(x, n - 1) + [x]
  }

  /** One chunk holding `n` copies of `x`, all live, and none taken yet. */
  ghost function Filled(s: State, x: Item, n: nat): State {
    s.(log := Copies(x, n), chunks := [Chunk(0, n, 0, false, None)])
  }

  lemma Adds(s: State, x: Item, clean: bool)
    requires Reached(s, clean) && s.lock.Free?
    ensures Reached(PutStep(BeginEnqueueStep(s, x)), clean)
  {
    Goes(s, BeginEnqueue(x), clean);
    Goes(BeginEnqueueStep(s, x), Put, clean);
  }

  lemma AddsOne(s: State, x: Item, n: nat)
    requires Reached(Filled(s, x, n), true) && s.lock.Free? && s.front == 0 && 1 <= n < CHUNK_SIZE
    ensures Reached(Filled(s, x, n + 1), true)
  {
    Adds(Filled(s, x, n), x, true);
    assert BeginEnqueueStep(Filled(s, x, n), x) == Filled(s, x, n).(lock := Adding(x));
    assert PutStep(BeginEnqueueStep(Filled(s, x, n), x)) == Filled(s, x, n + 1);
  }

  lemma {:induction false} Fills(s: State, x: Item, m: nat, n: nat)
    requires s.lock.Free? && s.front == 0 && 1 <= m <= n <= CHUNK_SIZE
    requires Reached(Filled(s, x, m), true)
    ensures Reached(Filled(s, x, n), true)
    decreases n - m
  {
    if m < n {
      AddsOne(s, x, m);
      Fills(s, x, m + 1, n);
    }
  }

  /** A live slot under the cursor, and no writer. */
  ghost predicate Readable(s: State, t: Tid, k: nat, i: nat) {
    && s.lock.Free? && s.PcOf(t) == Loop && s.cursor == At(k, i)
    && k < |s.chunks| && !s.chunks[k].pooled
    && s.chunks[k].head <= i < s.chunks[k].size && s.chunks[k].base + i < |s.log|
  }

  lemma Moves(s: State, t: Tid, pc: PC, clean: bool)
    requires Reached(s, clean) && MemberStep(s, t) == s.Goto(t, pc)
    requires clean ==> !StaleInstall(s, Member(t))
    ensures Reached(s.Goto(t, pc), clean)
  {
    Goes(s, Member(t), clean);
  }

  lemma GotoTwice(s: State, t: Tid, a: PC, b: PC)
    ensures s.Goto(t, a).Goto(t, b) == s.Goto(t, b)
  {
    assert s.threads[t := a][t := b] == s.threads[t := b];
  }

  lemma Switches(s: State, t: Tid, a: PC, b: PC, clean: bool)
    requires Reached(s.Goto(t, a), clean) && MemberStep(s.Goto(t, a), t) == s.Goto(t, a).Goto(t, b)
    requires clean ==> !a.InitHave?
    ensures Reached(s.Goto(t, b), clean)
  {
    GotoTwice(s, t, a, b);
    Moves(s.Goto(t, a), t, b, clean);
  }

  lemma Fetches(s: State, t: Tid, k: nat, i: nat, clean: bool)
    requires Reached(s, clean) && Readable(s, t, k, i)
    ensures Reached(s.Goto(t, Fetched(k, i, s.log[s.chunks[k].base + i])), clean)
  {
    Moves(s, t, Snap(k, i), clean);
    Switches(s, t, Snap(k, i), Unpooled(k, i), clean);
    Switches(s, t, Unpooled(k, i), InSize(k, i), clean);
    Switches(s, t, InSize(k, i), Fetched(k, i, s.log[s.chunks[k].base + i]), clean);
  }

  /** The first item is in place and member `t` has fetched the first element. */
  ghost function Opened(kind: Kind, x: Item, t: Tid): State {
    Filled(Start(kind), x, 1).Goto(t, InitHave(0))
  }

  lemma Opens(kind: Kind, x: Item, t: Tid)
    ensures Reached(Opened(kind, x, t), true)
  {
    Begins(kind);
    Adds(Start(kind), x, true);
    var s := Filled(Start(kind), x, 1);
    assert PutStep(BeginEnqueueStep(Start(kind), x)).log == s.log;
    Moves(s, t, InitFetch, true);
    Switches(s, t, InitFetch, InitHave(0), true);
  }

  lemma Places(s: State, t: Tid, clean: bool)
    requires Reached(s.Goto(t, InitHave(0)), clean) && s.cursor.Nil? && s.last.Nil?
    ensures Reached(s.Move(At(0, 0)).Goto(t, Loop), clean)
  {
    Goes(s.Goto(t, InitHave(0)), Member(t), clean);
    GotoTwice(s, t, InitHave(0), Loop);
  }

  /** Member 0 alone installs the first element and fetches its item. */
  lemma FetchesFirst(kind: Kind, x: Item)
    ensures Reached(Filled(Start(kind), x, 1).Move(At(0, 0)).Goto(0, Fetched(0, 0, x)), true)
  {
    Opens(kind, x, 0);
    var s := Filled(Start(kind), x, 1);
    Places(s, 0, true);
    var s1 := s.Move(At(0, 0));
    Fetches(s1.Goto(0, Loop), 0, 0, 0, true);
    GotoTwice(s1, 0, Loop, Fetched(0, 0, x));
  }

  // ---------- one item to two members ----------

  /** Member 1 holds the first element, and member 0 has installed it and read the item. */
  ghost function Installed(kind: Kind, x: Item): State {
    Opened(kind, x, 1).Move(At(0, 0)).Goto(0, Fetched(0, 0, x))
  }

  lemma InstallsFirst(kind: Kind, x: Item)
    ensures Reached(Installed(kind, x), false)
  {
    Opens(kind, x, 1);
    var s := Opened(kind, x, 1);
    assert Reached(s, false);
    Moves(s, 0, InitFetch, false);
    Switches(s, 0, InitFetch, InitHave(0), false);
    Places(s, 0, false);
    var s1 := s.Move(At(0, 0));
    Fetches(s1.Goto(0, Loop), 0, 0, 0, false);
    GotoTwice(s1, 0, Loop, Fetched(0, 0, x));
  }

  /** Member 2 is given the item that member 0 has read. */
  ghost function Contended(kind: Kind, x: Item): State {
    Installed(kind, x).Move(At(0, 1)).(delivered := [Delivery(2, 0, 0, x)]).Goto(2, Idle)
  }

  lemma Contends(kind: Kind, x: Item)
    ensures Reached(Contended(kind, x), false)
  {
    InstallsFirst(kind, x);
    var s := Installed(kind, x);
    Moves(s, 2, Loop, false);
    Fetches(s.Goto(2, Loop), 2, 0, 0, false);
    GotoTwice(s, 2, Loop, Fetched(0, 0, x));
    var s1 := s.Goto(2, Fetched(0, 0, x));
    Goes(s1, Member(2), false);
    GotoTwice(s.Move(At(0, 1)), 2, Fetched(0, 0, x), Idle);
    assert MemberStep(s1, 2) == Contended(kind, x);
  }

  /** The fields that a pass up to its count leaves alone. */
  ghost predicate SameReader(s: State, s': State) {
    && s'.kind == s.kind && s'.cursor == s.cursor && s'.last == s.last
    && s'.threads == s.threads && s'.delivered == s.delivered
  }

  /** A pass over a single one-item chunk, up to its count. */
  lemma TakesOnly(s: State, clean: bool)
    requires Reached(s, clean) && s.lock.Free? && s.front == 0
    requires |s.chunks| == 1 && s.chunks[0].head == 0 && s.chunks[0].size == 1
    ensures exists s' :: Reached(s', clean) && SameReader(s, s') && s'.lock == Expiring({(0, 0)})
                         && s'.front == |s'.chunks| == 1
  {
    Goes(s, BeginPass, clean);
    var s1 := Next(s, BeginPass);
    Goes(s1, ExpireItem, clean);
    var s2 := Next(s1, ExpireItem);
    Goes(s2, DropChunk, clean);
    var s3 := Next(s2, DropChunk);
    assert SameReader(s, s3) && s3.lock == Expiring({(0, 0)}) && s3.front == |s3.chunks| == 1;
  }

  lemma RepairsToNil(s: State)
    requires s.lock.Repairing? && s.lock.took != {} && s.cursor.At? && s.cursor.k < |s.chunks| == s.front
    ensures EndPassStep(s) == s.(lock := Free, cursor := Nil)
  {
  }

  /** Count and repair leave the reader without a position. */
  lemma Repairs(s: State)
    requires Reached(s, false) && s.lock == Expiring({(0, 0)}) && s.front == |s.chunks| == 1
    requires s.cursor == At(0, 1)
    ensures exists s' :: Reached(s', false) && s'.cursor.Nil? && s'.lock.Free?
                         && s'.threads == s.threads && s'.delivered == s.delivered && s'.kind == s.kind
  {
    Goes(s, Count, false);
    var s1 := CountStep(s);
    assert s1.lock == Repairing({(0, 0)}) && SameReader(s, s1);
    RepairsToNil(s1);
    Goes(s1, EndPass, false);
  }

  /** The rest of it leaves the reader without a position. */
  lemma Empties(s: State)
    requires Reached(s, false) && s.lock.Free? && s.front == 0 && s.cursor == At(0, 1)
    requires |s.chunks| == 1 && s.chunks[0].head == 0 && s.chunks[0].size == 1
    ensures exists s' :: Reached(s', false) && s'.cursor.Nil? && s'.lock.Free?
                         && s'.threads == s.threads && s'.delivered == s.delivered && s'.kind == s.kind
  {
    TakesOnly(s, false);
    var s1 :| Reached(s1, false) && SameReader(s, s1) && s1.lock == Expiring({(0, 0)})
              && s1.front == |s1.chunks| == 1;
    Repairs(s1);
  }

  /** Member 1 installs the first element that it has held, and member 0 commits its fetch. */
  lemma CommitsLate(s: State, x: Item)
    requires Reached(s, false) && s.cursor.Nil? && s.PcOf(1) == InitHave(0) && s.PcOf(0) == Fetched(0, 0, x)
    ensures exists s' :: Reached(s', false) && s'.kind == s.kind
                         && s'.delivered == s.delivered + [Delivery(0, 0, 0, x)]
  {
    Goes(s, Member(1), false);
    var s1 := Next(s, Member(1));
    assert s1.cursor == At(0, 0) && s1.PcOf(0) == Fetched(0, 0, x);
    Goes(s1, Member(0), false);
    NextKind(s, Member(1));
    NextKind(s1, Member(0));
    assert Next(s1, Member(0)).delivered == s.delivered + [Delivery(0, 0, 0, x)];
  }

  /** For a group, or a consumer with several reading goroutines: a pass then empties the
      list, member 1 installs the pooled chunk, and the fetch that member 0 made long
      ago commits. */
  lemma OneItemTwoMembers(kind: Kind, x: Item)
    ensures exists s :: Reached(s, false) && s.kind == kind
                        && s.delivered == [Delivery(2, 0, 0, x), Delivery(0, 0, 0, x)]
  {
    Contends(kind, x);
    Empties(Contended(kind, x));
    var s :| Reached(s, false) && s.cursor.Nil? && s.lock.Free?
             && s.threads == Contended(kind, x).threads && s.delivered == Contended(kind, x).delivered
             && s.kind == kind;
    CommitsLate(s, x);
  }

  // ---------- one item delivered and counted as lost ----------

  /** The pass takes the only item, which member 0 has fetched, and counts it. */
  lemma Counts(s: State)
    requires Reached(s, true) && s.lock.Free? && s.front == 0 && s.cursor == At(0, 0)
    requires |s.chunks| == 1 && s.chunks[0].head == 0 && s.chunks[0].size == 1
    ensures exists s' :: Reached(s', true) && SameReader(s, s') && (0, 0) in s'.told
  {
    TakesOnly(s, true);
    var s1 :| Reached(s1, true) && SameReader(s, s1) && s1.lock == Expiring({(0, 0)})
              && s1.front == |s1.chunks| == 1;
    assert (0, 0) in s1.lock.took && Touched(s1.lock.took, 0);
    Goes(s1, Count, true);
    assert SameReader(s, CountStep(s1)) && (0, 0) in CountStep(s1).told;
  }

  /** In a run with one reading goroutine and no stale install, the reader is told that it has
      lost an item, and is then given it. */
  lemma DeliveredAndTold(kind: Kind, x: Item)
    ensures exists s :: Reached(s, true) && s.kind == kind && s.threads.Keys == {0}
                        && s.delivered == [Delivery(0, 0, 0, x)] && (0, 0) in s.told
  {
    FetchesFirst(kind, x);
    var s1 := Filled(Start(kind), x, 1).Move(At(0, 0));
    var s2 := s1.Goto(0, Fetched(0, 0, x));
    Counts(s2);
    var s3 :| Reached(s3, true) && SameReader(s2, s3) && (0, 0) in s3.told;
    Goes(s3, Member(0), true);
    var s4 := Next(s3, Member(0));
    assert s4.delivered == [Delivery(0, 0, 0, x)] && s4.told == s3.told && s4.kind == kind;
    assert s4.threads.Keys == {0};
  }

  // ---------- unread items passed over ----------

  /** Member 0 has taken the first item and found the chunk's size to be 1. */
  ghost function AtTheEnd(kind: Kind): State {
    Start(kind).(threads := map[0 := AtEnd(0, 1)], cursor := At(0, 1), last := At(0, 1))
  }

  ghost function Taken(s: State, x: Item): State {
    s.(delivered := [Delivery(0, 0, 0, x)])
  }

  lemma TakesFirst(kind: Kind, x: Item)
    ensures Reached(Taken(Filled(Start(kind), x, 1).Move(At(0, 1)), x).Goto(0, Idle), true)
  {
    FetchesFirst(kind, x);
    var s := Filled(Start(kind), x, 1);
    var s1 := s.Move(At(0, 0));
    Goes(s1.Goto(0, Fetched(0, 0, x)), Member(0), true);
    GotoTwice(s, 0, Fetched(0, 0, x), Idle);
    assert Next(s1.Goto(0, Fetched(0, 0, x)), Member(0)) == Taken(s.Move(At(0, 1)), x).Goto(0, Idle);
  }

  lemma Walks(s: State)
    requires Reached(s, true) && s.PcOf(0) == Idle && s.cursor == At(0, 1)
    requires |s.chunks| == 1 && s.chunks[0].size == 1 && !s.chunks[0].pooled
    ensures Reached(s.Goto(0, AtEnd(0, 1)), true)
  {
    Moves(s, 0, Loop, true);
    Switches(s, 0, Loop, Snap(0, 1), true);
    Switches(s, 0, Snap(0, 1), Unpooled(0, 1), true);
    Switches(s, 0, Unpooled(0, 1), AtEnd(0, 1), true);
  }

  lemma ReachesEnd(kind: Kind, x: Item)
    ensures Reached(Filled(Taken(AtTheEnd(kind), x), x, 1), true)
  {
    TakesFirst(kind, x);
    var s := Taken(Filled(Start(kind), x, 1).Move(At(0, 1)), x);
    Walks(s.Goto(0, Idle));
    GotoTwice(s, 0, Idle, AtEnd(0, 1));
    assert s.Goto(0, AtEnd(0, 1)) == Filled(Taken(AtTheEnd(kind), x), x, 1);
  }

  /** The member moves on from a full chunk of which it has read one item. */
  lemma MovesOn(s: State, x: Item)
    requires Reached(s, true) && s.PcOf(0) == AtEnd(0, 1) && s.cursor == At(0, 1)
    requires s.delivered == [Delivery(0, 0, 0, x)] && |s.chunks| == 2
    requires s.chunks[0] == Chunk(0, CHUNK_SIZE, 0, false, Some(1))
    ensures exists s' :: Reached(s', true) && s'.kind == s.kind && s'.threads.Keys == s.threads.Keys
                         && |s'.chunks| == 2 && s'.cursor == At(1, 0)
                         && (forall j :: 1 <= j < CHUNK_SIZE ==> !Accounted(s', 0, j))
  {
    Moves(s, 0, HaveNext(0, 1, Some(1)), true);
    var s1 := s.Goto(0, HaveNext(0, 1, Some(1)));
    Goes(s1, Member(0), true);
    var s2 := Next(s1, Member(0));
    assert s2.last == At(1, 0) && s2.delivered == s.delivered && s2.chunks == s.chunks;
    assert forall j :: 1 <= j < CHUNK_SIZE ==> !Accounted(s2, 0, j);
  }

  /** A thousand enqueues later the member loads NextElement and moves on, in a run with one
      reading goroutine and no stale install: slots 1 to 999 are live, undelivered and behind
      the cursor of the group or of the independent consumer. */
  lemma UnreadItemsPassedOver(kind: Kind, x: Item)
    ensures exists s :: Reached(s, true) && s.kind == kind && s.threads.Keys == {0}
                        && |s.chunks| == 2 && s.cursor == At(1, 0)
                        && (forall j :: 1 <= j < CHUNK_SIZE ==> !Accounted(s, 0, j))
  {
    ReachesEnd(kind, x);
    var s0 := Taken(AtTheEnd(kind), x);
    Fills(s0, x, 1, CHUNK_SIZE);
    var s1 := Filled(s0, x, CHUNK_SIZE);
    Adds(s1, x, true);
    var s2 := PutStep(BeginEnqueueStep(s1, x));
    assert s2.chunks[0] == Chunk(0, CHUNK_SIZE, 0, false, Some(1));
    MovesOn(s2, x);
  }
}
