/**
 The books of a reader over interleavings: every item that was ever stored is delivered, or
 counted as expired unread, or still unread, and exactly one of the three, as long as none of
 four steps happens. The pass counts before it repairs, under two separate locks, and members
 go on in between.
 */
module GroupBooks {
  import opened QueueTypes
  import opened GroupSteps
  import opened GroupTheorems

  // ---------- the books ----------

  /** The cursor has not passed the slot. */
  ghost predicate Ahead(s: State, k: nat, j: nat) {
    s.last.Nil? || !Before(k, j, s.last.k, s.last.i)
  }

  /** The pass at work has taken the slot and has yet to count. */
  ghost predicate Pending(s: State, k: nat, j: nat) {
    s.lock.Expiring? && (k, j) in s.lock.took
  }

  /** The slot has not expired, as far as the reader has been told. */
  ghost predicate Kept(s: State, k: nat, j: nat)
    requires k < |s.chunks|
  {
    j >= s.chunks[k].head || Pending(s, k, j)
  }

  ghost predicate Unread(s: State, k: nat, j: nat)
    requires k < |s.chunks|
  {
    Ahead(s, k, j) && Kept(s, k, j)
  }

  /** Exactly one of delivered, told and unread. */
  ghost predicate Booked(s: State, k: nat, j: nat)
    requires k < |s.chunks|
  {
    var gave, told, unread := Gave(s.delivered, k, j), (k, j) in s.told, Unread(s, k, j);
    (gave || told || unread) && !(gave && told) && !(gave && unread) && !(told && unread)
  }

  ghost predicate AllBooked(s: State) {
    forall k, j :: 0 <= k < |s.chunks| && 0 <= j < s.chunks[k].size ==> Booked(s, k, j)
  }

  // ---------- what breaks them ----------

  /** The step delivers slot `(k, i)`. */
  ghost predicate Commits(s: State, a: Action, k: nat, i: nat) {
    a.Member? && s.PcOf(a.t).Fetched? && s.PcOf(a.t).k == k && s.PcOf(a.t).i == i && s.cursor == At(k, i)
  }

  /** The reader has already been told that it lost what it is now given. */
  ghost predicate LateCommit(s: State, a: Action) {
    exists k: nat, i: nat :: Commits(s, a, k, i) && (k, i) in s.told
  }

  /** A consumer jumps over slots that the pass at work has taken and not yet counted. */
  ghost predicate EagerSkip(s: State, a: Action) {
    && a.Member? && s.PcOf(a.t).Skip?
    && var pc := s.PcOf(a.t);
    s.cursor == At(pc.k, pc.i) && exists j :: pc.i <= j < pc.to && Pending(s, pc.k, j)
  }

  /** A member moves on from a chunk that holds unread slots. */
  ghost predicate HastyMove(s: State, a: Action) {
    && a.Member? && s.PcOf(a.t).HaveNext?
    && var pc := s.PcOf(a.t);
    && pc.n.Some? && s.cursor == At(pc.k, pc.i) && pc.k < |s.chunks|
    && exists j :: pc.i <= j < s.chunks[pc.k].size && Kept(s, pc.k, j)
  }

  /** The pass counts for a cursor that was given up after reading from a chunk which the pass
      has taken from, or for one in a chunk that was gone before the pass. */
  ghost predicate MisCount(s: State, a: Action) {
    && a.Count? && s.lock.Expiring? && CountStep(s) != s
    && if s.cursor.Nil? then s.last.At? && exists p :: p in s.lock.took && Before(p.0, p.1, s.last.k, s.last.i)
       else !Touched(s.lock.took, s.cursor.k)
            && exists p :: p in s.lock.took && !Before(p.0, p.1, s.cursor.k, s.cursor.i)
  }

  ghost predicate Breaks(s: State, a: Action) {
    LateCommit(s, a) || EagerSkip(s, a) || HastyMove(s, a) || MisCount(s, a)
  }

  // ---------- the invariant ----------

  function TookOf(l: Lock): set<Slot> { if l.Expiring? || l.Repairing? then l.took else {} }

  ghost predicate Gone(s: State, p: Slot) { p.0 < |s.chunks| && p.1 < s.chunks[p.0].head }

  /** A first element fetched before the pass is not behind anything the pass has taken. */
  ghost predicate StartsBefore(pc: PC, took: set<Slot>) {
    pc.InitHave? ==> forall p :: p in took ==> pc.f <= p.0
  }

  ghost predicate BooksOk(s: State) {
    && (forall p :: p in s.told ==> Gone(s, p))
    && (forall p :: p in TookOf(s.lock) ==> Gone(s, p))
    && (s.lock.Expiring? ==> s.lock.took !! s.told)
    && (forall t :: t in s.threads ==> StartsBefore(s.threads[t], TookOf(s.lock)))
  }

  lemma GoneStays(s: State, s': State, ps: set<Slot>)
    requires Grows(s, s') && forall p :: p in ps ==> Gone(s, p)
    ensures forall p :: p in ps ==> Gone(s', p)
  {
    forall p | p in ps
      ensures Gone(s', p)
    {
      assert Gone(s, p) && ChunkGrows(s.chunks[p.0], s'.chunks[p.0]);
    }
  }

  lemma MemberThread(s: State, t: Tid)
    ensures MemberStep(s, t) == s || MemberStep(s, t).threads == s.threads[t := MemberStep(s, t).PcOf(t)]
  {
  }

  lemma FetchNeedsLock(s: State, t: Tid)
    ensures MemberStep(s, t) != s && MemberStep(s, t).PcOf(t).InitHave? ==> s.lock.Free?
  {
  }

  /** The member that moves has not fetched a first element during the pass. */
  lemma MemberStartsBefore(s: State, t: Tid)
    ensures
      var s' := MemberStep(s, t);
      s' == s || (s'.threads == s.threads[t := s'.PcOf(t)] && StartsBefore(s'.PcOf(t), TookOf(s.lock)))
  {
    MemberThread(s, t);
    FetchNeedsLock(s, t);
  }

  lemma MemberLeavesBooks(s: State, t: Tid)
    ensures MemberStep(s, t).told == s.told
  {
  }

  lemma ThreadBooksOk(s: State, s': State, t: Tid)
    requires BooksOk(s) && s'.chunks == s.chunks && s'.lock == s.lock && s'.told == s.told
    requires s' == s || (s'.threads == s.threads[t := s'.PcOf(t)] && StartsBefore(s'.PcOf(t), TookOf(s.lock)))
    ensures BooksOk(s')
  {
    forall p | p in s'.told || p in TookOf(s'.lock)
      ensures Gone(s', p)
    {
      assert Gone(s, p);
    }
  }

  lemma MemberBooksOk(s: State, t: Tid)
    requires Inv(s) && BooksOk(s)
    ensures BooksOk(MemberStep(s, t))
  {
    var s' := MemberStep(s, t);
    MemberStartsBefore(s, t);
    MemberLeavesList(s, t);
    MemberLeavesBooks(s, t);
    ThreadBooksOk(s, s', t);
  }

  lemma ExpireBooksOk(s: State)
    requires Inv(s) && BooksOk(s)
    ensures BooksOk(ExpireItemStep(s))
  {
    var s' := ExpireItemStep(s);
    ExpireItemKeeps(s);
    if s' != s {
      var p := (s.front, s.chunks[s.front].head);
      assert !Gone(s, p) && Gone(s', p);
      GoneStays(s, s', s.told);
      GoneStays(s, s', s.lock.took);
      forall t | t in s'.threads
        ensures StartsBefore(s'.threads[t], TookOf(s'.lock))
      {
        assert PcOk(s, s.threads[t]) && StartsBefore(s.threads[t], TookOf(s.lock));
      }
    }
  }

  /** Other steps take nothing; counting only tells what was taken. */
  lemma CalmBooksOk(s: State, s': State)
    requires BooksOk(s) && Grows(s, s') && s'.threads == s.threads
    requires TookOf(s'.lock) == TookOf(s.lock) || TookOf(s'.lock) == {}
    requires s'.told == s.told || (s'.told <= s.told + TookOf(s.lock) && !s'.lock.Expiring?)
    requires s'.lock.Expiring? ==> s.lock.Expiring? || TookOf(s'.lock) == {}
    ensures BooksOk(s')
  {
    GoneStays(s, s', s.told + TookOf(s.lock));
    forall t | t in s'.threads
      ensures StartsBefore(s'.threads[t], TookOf(s'.lock))
    {
      assert StartsBefore(s.threads[t], TookOf(s.lock));
    }
  }

  lemma CalmStep(s: State, a: Action)
    requires !a.Member? && !a.ExpireItem?
    ensures
      var s' := Next(s, a);
      && s'.threads == s.threads
      && (TookOf(s'.lock) == TookOf(s.lock) || TookOf(s'.lock) == {})
      && (s'.told == s.told || (s'.told <= s.told + TookOf(s.lock) && !s'.lock.Expiring?))
      && (s'.lock.Expiring? ==> s.lock.Expiring? || TookOf(s'.lock) == {})
  {
  }

  lemma StepBooksOk(s: State, a: Action)
    requires Inv(s) && BooksOk(s) && !StaleInstall(s, a)
    ensures BooksOk(Next(s, a))
  {
    if a.Member? {
      MemberBooksOk(s, a.t);
    } else if a.ExpireItem? {
      ExpireBooksOk(s);
    } else {
      StepKeeps(s, a);
      CalmStep(s, a);
      CalmBooksOk(s, Next(s, a));
    }
  }

  // ---------- one slot over one step ----------

  lemma SameBooks(s: State, s': State, k: nat, j: nat)
    requires k < |s.chunks| && Booked(s, k, j) && s'.chunks == s.chunks
    requires s'.told == s.told && s'.delivered == s.delivered && Unread(s', k, j) == Unread(s, k, j)
    ensures Booked(s', k, j)
  {
  }

  lemma GaveMore(ds: seq<Delivery>, d: Delivery, k: nat, j: nat)
    ensures Gave(ds + [d], k, j) <==> Gave(ds, k, j) || (d.k == k && d.i == j)
  {
    if Gave(ds, k, j) {
      GaveGrows(ds, ds + [d], k, j);
    } else if d.k == k && d.i == j {
      assert (ds + [d])[|ds|] == d;
    }
  }

  /** A delivery books its slot, if the reader has not been told that it lost it. */
  lemma CommitBooks(s: State, t: Tid, k: nat, j: nat, k0: nat, i0: nat)
    requires Inv(s) && Commits(s, Member(t), k0, i0) && (k0, i0) !in s.told
    requires k < |s.chunks| && j < s.chunks[k].size && Booked(s, k, j)
    ensures MemberStep(s, t).chunks == s.chunks && Booked(MemberStep(s, t), k, j)
  {
    var s', pc := MemberStep(s, t), s.PcOf(t);
    var d := Delivery(t, k0, i0, pc.item);
    assert s'.delivered == s.delivered + [d];
    assert forall x :: 0 <= x < |s.delivered| ==> Behind(s, s.delivered[x]);
    GaveMore(s.delivered, d, k, j);
  }

  /** Passing over a slot that is not unread does not change what is unread. */
  lemma PassesRead(s: State, c: Cur, s': State, k: nat, j: nat)
    requires Moved(s, c, s') && c.At? && k < |s.chunks|
    requires s.last.At? ==> !Before(c.k, c.i, s.last.k, s.last.i)
    requires Unread(s, k, j) ==> !Before(k, j, c.k, c.i)
    ensures Unread(s', k, j) == Unread(s, k, j)
  {
  }

  lemma InstallUnread(s: State, t: Tid, k: nat, j: nat)
    requires Inv(s) && BooksOk(s) && !StaleInstall(s, Member(t)) && s.PcOf(t).InitHave?
    requires k < |s.chunks| && j < s.chunks[k].size
    ensures Unread(MemberStep(s, t), k, j) == Unread(s, k, j)
  {
    var f := s.PcOf(t).f;
    assert PcOk(s, s.PcOf(t)) && ChunkOk(s.chunks[k], k, |s.chunks|, s.front, |s.log|);
    if Installs(s, Member(t)) && s.cursor != At(f, 0) {
      assert StartsBefore(s.PcOf(t), TookOf(s.lock));
      PassesRead(s, At(f, 0), MemberStep(s, t), k, j);
    }
  }

  lemma ReadUnread(s: State, t: Tid, k: nat, j: nat)
    requires Inv(s) && !EagerSkip(s, Member(t)) && !HastyMove(s, Member(t))
    requires s.PcOf(t).Skip? || s.PcOf(t).HaveNext?
    requires k < |s.chunks| && j < s.chunks[k].size
    ensures Unread(MemberStep(s, t), k, j) == Unread(s, k, j)
  {
    var pc, s' := s.PcOf(t), MemberStep(s, t);
    assert PcOk(s, pc) && ChunkOk(s.chunks[pc.k], pc.k, |s.chunks|, s.front, |s.log|);
    if s.cursor == At(pc.k, pc.i) {
      match pc
      case Skip(k0, i0, to) =>
        assert Pending(s, k0, j) && i0 <= j < to ==> EagerSkip(s, Member(t));
        PassesRead(s, At(k0, to), s', k, j);
      case HaveNext(k0, i0, n) =>
        if n.Some? {
          assert i0 <= j < s.chunks[k0].size && Kept(s, k0, j) ==> HastyMove(s, Member(t));
          PassesRead(s, At(n.value, 0), s', k, j);
        }
    }
  }

  lemma OtherPcs(s: State, t: Tid)
    requires !s.PcOf(t).InitHave? && !s.PcOf(t).Skip? && !s.PcOf(t).HaveNext?
    requires !(s.PcOf(t).Fetched? && s.cursor == At(s.PcOf(t).k, s.PcOf(t).i))
    ensures MemberStep(s, t).last == s.last
  {
  }

  lemma OnlyCommitsDeliver(s: State, t: Tid)
    requires !(s.PcOf(t).Fetched? && s.cursor == At(s.PcOf(t).k, s.PcOf(t).i))
    ensures MemberStep(s, t).delivered == s.delivered
  {
  }

  /** No step of a member but a delivery changes what is unread. */
  lemma MemberUnread(s: State, t: Tid, k: nat, j: nat)
    requires Inv(s) && BooksOk(s) && !StaleInstall(s, Member(t)) && !Breaks(s, Member(t))
    requires k < |s.chunks| && j < s.chunks[k].size
    requires !(s.PcOf(t).Fetched? && s.cursor == At(s.PcOf(t).k, s.PcOf(t).i))
    ensures
      var s' := MemberStep(s, t);
      s'.chunks == s.chunks && s'.delivered == s.delivered && Unread(s', k, j) == Unread(s, k, j)
  {
    MemberLeavesList(s, t);
    OnlyCommitsDeliver(s, t);
    if s.PcOf(t).InitHave? {
      InstallUnread(s, t, k, j);
    } else if s.PcOf(t).Skip? || s.PcOf(t).HaveNext? {
      ReadUnread(s, t, k, j);
    } else {
      OtherPcs(s, t);
    }
  }

  lemma MemberBooks(s: State, t: Tid, k: nat, j: nat)
    requires Inv(s) && BooksOk(s) && !StaleInstall(s, Member(t)) && !Breaks(s, Member(t))
    requires k < |s.chunks| && j < s.chunks[k].size && Booked(s, k, j)
    ensures MemberStep(s, t).chunks == s.chunks && Booked(MemberStep(s, t), k, j)
  {
    var pc := s.PcOf(t);
    if pc.Fetched? && s.cursor == At(pc.k, pc.i) {
      assert Commits(s, Member(t), pc.k, pc.i);
      CommitBooks(s, t, k, j, pc.k, pc.i);
    } else {
      MemberUnread(s, t, k, j);
      MemberLeavesBooks(s, t);
      SameBooks(s, MemberStep(s, t), k, j);
    }
  }

  /** Counting tells a reader of exactly the slots taken ahead of it, unless it miscounts. */
  lemma CountedIsAhead(s: State, p: Slot)
    requires CursorOk(s) && s.lock.Expiring? && CountStep(s) != s && !MisCount(s, Count) && p in s.lock.took
    ensures p in Counted(s.cursor, s.lock.took) <==> Ahead(s, p.0, p.1)
  {
  }

  lemma CountBooks(s: State, k: nat, j: nat)
    requires Inv(s) && BooksOk(s) && !MisCount(s, Count)
    requires k < |s.chunks| && j < s.chunks[k].size && Booked(s, k, j)
    ensures Booked(CountStep(s), k, j)
  {
    if CountStep(s) != s && (k, j) in s.lock.took {
      CountedIsAhead(s, (k, j));
      assert Gone(s, (k, j));
    }
  }

  lemma RepairBooks(s: State, k: nat, j: nat)
    requires Inv(s) && k < |s.chunks| && j < s.chunks[k].size && Booked(s, k, j)
    ensures EndPassStep(s).chunks == s.chunks && Booked(EndPassStep(s), k, j)
  {
    var s' := EndPassStep(s);
    assert ChunkOk(s.chunks[k], k, |s.chunks|, s.front, |s.log|);
    SameBooks(s, s', k, j);
  }

  /** A slot that was already there stays booked. */
  lemma OldSlotBooks(s: State, a: Action, k: nat, j: nat)
    requires Inv(s) && BooksOk(s) && !StaleInstall(s, a) && !Breaks(s, a)
    requires k < |s.chunks| && j < s.chunks[k].size && Booked(s, k, j)
    requires k < |Next(s, a).chunks|
    ensures Booked(Next(s, a), k, j)
  {
    match a
    case Member(t) => MemberBooks(s, t, k, j);
    case Count => CountBooks(s, k, j);
    case EndPass => RepairBooks(s, k, j);
    case _ =>
  }

  /** A slot written by this step is unread. */
  lemma NewSlotBooks(s: State, a: Action, k: nat, j: nat)
    requires Inv(s) && BooksOk(s) && k < |Next(s, a).chunks| && j < Next(s, a).chunks[k].size
    requires k >= |s.chunks| || j >= s.chunks[k].size
    ensures Booked(Next(s, a), k, j)
  {
    assert forall x :: 0 <= x < |s.delivered| ==> Behind(s, s.delivered[x]);
    assert k < |s.chunks| ==> ChunkOk(s.chunks[k], k, |s.chunks|, s.front, |s.log|);
    assert !Gone(s, (k, j));
  }

  lemma StepBooks(s: State, a: Action)
    requires Inv(s) && BooksOk(s) && AllBooked(s) && !StaleInstall(s, a) && !Breaks(s, a)
    ensures AllBooked(Next(s, a))
  {
    var s' := Next(s, a);
    forall k, j | 0 <= k < |s'.chunks| && 0 <= j < s'.chunks[k].size
      ensures Booked(s', k, j)
    {
      if k < |s.chunks| && j < s.chunks[k].size {
        OldSlotBooks(s, a, k, j);
      } else {
        NewSlotBooks(s, a, k, j);
      }
    }
  }

  // ---------- the four steps do break them ----------

  lemma LateCommitBreaks(s: State, t: Tid, k: nat, i: nat)
    requires Inv(s) && Commits(s, Member(t), k, i) && (k, i) in s.told
    ensures !AllBooked(MemberStep(s, t))
  {
    var s' := MemberStep(s, t);
    assert PcOk(s, s.PcOf(t));
    assert s'.delivered[|s.delivered|] == Delivery(t, k, i, s.PcOf(t).item);
    assert Gave(s'.delivered, k, i) && !Booked(s', k, i);
  }

  /** An unread slot that a member's step leaves behind without delivering it. */
  lemma PassedOver(s: State, s': State, k: nat, j: nat)
    requires Inv(s) && BooksOk(s) && k < |s.chunks| && j < s.chunks[k].size && Unread(s, k, j)
    requires s'.chunks == s.chunks && s'.told == s.told && s'.delivered == s.delivered && !Ahead(s', k, j)
    ensures !AllBooked(s')
  {
    assert forall x :: 0 <= x < |s.delivered| ==> Behind(s, s.delivered[x]);
    assert (k, j) in s.told ==> Gone(s, (k, j));
    assert !Booked(s', k, j);
  }

  lemma SkipBreaks(s: State, t: Tid)
    requires Inv(s) && BooksOk(s) && EagerSkip(s, Member(t))
    ensures !AllBooked(MemberStep(s, t))
  {
    var pc := s.PcOf(t);
    assert PcOk(s, pc) && ChunkOk(s.chunks[pc.k], pc.k, |s.chunks|, s.front, |s.log|);
    var j :| pc.i <= j < pc.to && Pending(s, pc.k, j);
    PassedOver(s, MemberStep(s, t), pc.k, j);
  }

  lemma MoveBreaks(s: State, t: Tid)
    requires Inv(s) && BooksOk(s) && HastyMove(s, Member(t))
    ensures !AllBooked(MemberStep(s, t))
  {
    var pc := s.PcOf(t);
    assert PcOk(s, pc) && ChunkOk(s.chunks[pc.k], pc.k, |s.chunks|, s.front, |s.log|);
    var j :| pc.i <= j < s.chunks[pc.k].size && Kept(s, pc.k, j);
    PassedOver(s, MemberStep(s, t), pc.k, j);
  }

  lemma MisCountBreaks(s: State)
    requires Inv(s) && BooksOk(s) && AllBooked(s) && MisCount(s, Count)
    ensures !AllBooked(CountStep(s))
  {
    var s' := CountStep(s);
    assert forall x :: 0 <= x < |s.delivered| ==> Behind(s, s.delivered[x]);
    if s.cursor.Nil? {
      var p :| p in s.lock.took && Before(p.0, p.1, s.last.k, s.last.i);
      assert Gone(s, p) && ChunkOk(s.chunks[p.0], p.0, |s.chunks|, s.front, |s.log|);
      assert Booked(s, p.0, p.1) && !Booked(s', p.0, p.1);
    } else {
      var p :| p in s.lock.took && !Before(p.0, p.1, s.cursor.k, s.cursor.i);
      assert Gone(s, p) && ChunkOk(s.chunks[p.0], p.0, |s.chunks|, s.front, |s.log|);
      assert Booked(s, p.0, p.1) && !Booked(s', p.0, p.1);
    }
  }

  lemma BreaksBooks(s: State, a: Action)
    requires Inv(s) && BooksOk(s) && AllBooked(s) && Breaks(s, a)
    ensures !AllBooked(Next(s, a))
  {
    if LateCommit(s, a) {
      var k: nat, i: nat :| Commits(s, a, k, i) && (k, i) in s.told;
      LateCommitBreaks(s, a.t, k, i);
    } else if EagerSkip(s, a) {
      SkipBreaks(s, a.t);
    } else if HastyMove(s, a) {
      MoveBreaks(s, a.t);
    } else {
      MisCountBreaks(s);
    }
  }

  // ---------- over whole runs ----------

  lemma {:induction false} PointBooksOk(kind: Kind, acts: seq<Action>, n: nat)
    requires n <= |acts| && NoStaleInstall(kind, acts)
    ensures BooksOk(Point(kind, acts, n))
  {
    if n > 0 {
      PointBooksOk(kind, acts, n - 1);
      PointInv(kind, acts, n - 1);
      PointStep(kind, acts, n - 1);
      assert !StaleAt(kind, acts, n - 1);
      StepBooksOk(Point(kind, acts, n - 1), acts[n - 1]);
    }
  }

  ghost predicate BreaksAt(kind: Kind, acts: seq<Action>, n: nat)
    requires n < |acts|
  {
    Breaks(Point(kind, acts, n), acts[n])
  }

  lemma {:induction false} PointBooked(kind: Kind, acts: seq<Action>, n: nat)
    requires n <= |acts| && NoStaleInstall(kind, acts)
    requires forall m :: 0 <= m < |acts| ==> !BreaksAt(kind, acts, m)
    ensures AllBooked(Point(kind, acts, n))
  {
    if n > 0 {
      PointBooked(kind, acts, n - 1);
      PointBooksOk(kind, acts, n - 1);
      PointInv(kind, acts, n - 1);
      PointStep(kind, acts, n - 1);
      assert !StaleAt(kind, acts, n - 1) && !BreaksAt(kind, acts, n - 1);
      StepBooks(Point(kind, acts, n - 1), acts[n - 1]);
    }
  }

  /**
   Conservation over interleavings: at every point each stored item is exactly one of delivered,
   told and unread, if and only if none of the four steps happens.
   */
  lemma BookedIff(kind: Kind, acts: seq<Action>)
    requires NoStaleInstall(kind, acts)
    ensures (forall n :: 0 <= n <= |acts| ==> AllBooked(Trace(kind, acts)[n]))
       <==> (forall n :: 0 <= n < |acts| ==> !BreaksAt(kind, acts, n))
  {
    if forall n :: 0 <= n < |acts| ==> !BreaksAt(kind, acts, n) {
      forall n | 0 <= n <= |acts|
        ensures AllBooked(Trace(kind, acts)[n])
      {
        PointBooked(kind, acts, n);
      }
    } else {
      var n :| 0 <= n < |acts| && BreaksAt(kind, acts, n);
      if AllBooked(Trace(kind, acts)[n]) {
        PointBooksOk(kind, acts, n);
        PointInv(kind, acts, n);
        PointStep(kind, acts, n);
        BreaksBooks(Point(kind, acts, n), acts[n]);
        assert !AllBooked(Trace(kind, acts)[n + 1]);
      }
    }
  }

  // ---------- a late commit falls between count and repair ----------

  /** What a member has fetched and the reader has been told of is behind the cursor, or is being
      repaired right now. */
  ghost predicate FetchOk(s: State, pc: PC) {
    pc.Fetched? && (pc.k, pc.i) in s.told ==>
      Left(s, At(pc.k, pc.i)) || (s.lock.Repairing? && (pc.k, pc.i) in s.lock.took)
  }

  ghost predicate FetchesOk(s: State) { forall t :: t in s.threads ==> FetchOk(s, s.threads[t]) }

  lemma LeftStays(s: State, s': State, c: Cur)
    requires CursorOk(s) && Advances(s, s') && c.At? && Left(s, c)
    ensures Left(s', c)
  {
  }

  lemma RepairLeaves(s: State, k: nat, i: nat)
    requires Inv(s) && BooksOk(s) && s.lock.Repairing? && (k, i) in s.lock.took && Visited(s, k, i)
    ensures Left(EndPassStep(s), At(k, i))
  {
    assert Gone(s, (k, i)) && ChunkOk(s.chunks[k], k, |s.chunks|, s.front, |s.log|);
    assert Touched(s.lock.took, k);
  }

  lemma ToldGrows(s: State, a: Action, p: Slot)
    ensures p in Next(s, a).told && p !in s.told ==> Next(s, a).lock.Repairing? && p in Next(s, a).lock.took
    ensures s.lock.Repairing? && !a.EndPass? ==> Next(s, a).lock == s.lock
  {
  }

  lemma StepFetchOk(s: State, a: Action, pc: PC)
    requires Inv(s) && BooksOk(s) && !StaleInstall(s, a) && PcOk(s, pc) && FetchOk(s, pc)
    ensures FetchOk(Next(s, a), pc)
  {
    var s' := Next(s, a);
    if pc.Fetched? && (pc.k, pc.i) in s'.told {
      ToldGrows(s, a, (pc.k, pc.i));
      if (pc.k, pc.i) in s.told && Left(s, At(pc.k, pc.i)) {
        StepAdvances(s, a);
        LeftStays(s, s', At(pc.k, pc.i));
      } else if (pc.k, pc.i) in s.told && a.EndPass? {
        RepairLeaves(s, pc.k, pc.i);
      }
    }
  }

  lemma NewFetchIsLive(s: State, t: Tid)
    ensures
      var (s', pc) := (MemberStep(s, t), MemberStep(s, t).PcOf(t));
      s' != s && pc.Fetched? ==> pc.k < |s.chunks| && s.chunks[pc.k].head <= pc.i
  {
  }

  /** A slot that has just been fetched was live, so nobody has been told of it. */
  lemma NewFetchOk(s: State, t: Tid)
    requires BooksOk(s)
    ensures
      var s' := MemberStep(s, t);
      s' == s || (s'.threads == s.threads[t := s'.PcOf(t)] && FetchOk(s', s'.PcOf(t)))
  {
    var s', pc := MemberStep(s, t), MemberStep(s, t).PcOf(t);
    MemberThread(s, t);
    NewFetchIsLive(s, t);
    MemberLeavesBooks(s, t);
    assert pc.Fetched? && (pc.k, pc.i) in s.told ==> Gone(s, (pc.k, pc.i));
  }

  lemma StepFetchesOk(s: State, a: Action)
    requires Inv(s) && BooksOk(s) && !StaleInstall(s, a) && FetchesOk(s)
    ensures FetchesOk(Next(s, a))
  {
    var s' := Next(s, a);
    if a.Member? {
      NewFetchOk(s, a.t);
    }
    forall t | t in s'.threads && !(a.Member? && a.t == t)
      ensures FetchOk(s', s'.threads[t])
    {
      assert t in s.threads && s'.threads[t] == s.threads[t];
      StepFetchOk(s, a, s.threads[t]);
    }
  }

  lemma {:induction false} PointFetchesOk(kind: Kind, acts: seq<Action>, n: nat)
    requires n <= |acts| && NoStaleInstall(kind, acts)
    ensures FetchesOk(Point(kind, acts, n))
  {
    if n > 0 {
      PointFetchesOk(kind, acts, n - 1);
      PointBooksOk(kind, acts, n - 1);
      PointInv(kind, acts, n - 1);
      PointStep(kind, acts, n - 1);
      assert !StaleAt(kind, acts, n - 1);
      StepFetchesOk(Point(kind, acts, n - 1), acts[n - 1]);
    }
  }

  /** A late commit happens only between the count and the repair of the pass that took the slot. */
  lemma LateCommitIsBetween(kind: Kind, acts: seq<Action>, n: nat, k: nat, i: nat)
    requires n < |acts| && NoStaleInstall(kind, acts)
    requires Commits(Point(kind, acts, n), acts[n], k, i) && (k, i) in Point(kind, acts, n).told
    ensures Point(kind, acts, n).lock.Repairing? && (k, i) in Point(kind, acts, n).lock.took
  {
    PointFetchesOk(kind, acts, n);
    PointInv(kind, acts, n);
    assert FetchOk(Point(kind, acts, n), Point(kind, acts, n).PcOf(acts[n].t));
  }

  // ---------- in numbers ----------

  ghost function Written(s: State): set<Slot> {
    set k: nat, j: nat | k < |s.chunks| && j < s.chunks[k].size :: (k, j)
  }

  ghost function UnreadSlots(s: State): set<Slot> {
    set p | p in Written(s) && Unread(s, p.0, p.1)
  }

  ghost function GivenSlots(ds: seq<Delivery>): set<Slot> {
    set x | 0 <= x < |ds| :: (ds[x].k, ds[x].i)
  }

  lemma GivenSnoc(ds: seq<Delivery>)
    requires ds != []
    ensures GivenSlots(ds) == GivenSlots(ds[..|ds| - 1]) + {(ds[|ds| - 1].k, ds[|ds| - 1].i)}
  {
    var n := |ds| - 1;
    forall q | q in GivenSlots(ds)
      ensures q in GivenSlots(ds[..n]) + {(ds[n].k, ds[n].i)}
    {
      var x :| 0 <= x < |ds| && q == (ds[x].k, ds[x].i);
      assert x < n ==> ds[..n][x] == ds[x];
    }
    forall q | q in GivenSlots(ds[..n])
      ensures q in GivenSlots(ds)
    {
      var x :| 0 <= x < n && q == (ds[..n][x].k, ds[..n][x].i);
      assert ds[x] == ds[..n][x];
    }
  }

  lemma {:induction false} GivenDistinct(ds: seq<Delivery>)
    requires InOrder(ds)
    ensures |GivenSlots(ds)| == |ds|
  {
    if ds != [] {
      var n := |ds| - 1;
      var p := (ds[n].k, ds[n].i);
      forall x, y | 0 <= x < y < n
        ensures Earlier(ds[..n], x, y)
      {
        assert Earlier(ds, x, y);
      }
      GivenDistinct(ds[..n]);
      GivenSnoc(ds);
      forall x | 0 <= x < n
        ensures (ds[..n][x].k, ds[..n][x].i) != p
      {
        assert Earlier(ds, x, n);
      }
    }
  }

  lemma GivenIsGave(ds: seq<Delivery>, p: Slot)
    ensures p in GivenSlots(ds) <==> Gave(ds, p.0, p.1)
  {
  }

  lemma BookedOnce(s: State, p: Slot)
    requires AllBooked(s) && p in Written(s)
    ensures
      var given, unread := p in GivenSlots(s.delivered), p in UnreadSlots(s);
      (given || p in s.told || unread) && !(given && p in s.told) && !(given && unread) && !(p in s.told && unread)
  {
    GivenIsGave(s.delivered, p);
    assert Booked(s, p.0, p.1);
  }

  lemma AllWritten(s: State)
    requires Inv(s) && BooksOk(s)
    ensures GivenSlots(s.delivered) <= Written(s) && s.told <= Written(s)
  {
    forall x | 0 <= x < |s.delivered|
      ensures (s.delivered[x].k, s.delivered[x].i) in Written(s)
    {
      assert Behind(s, s.delivered[x]);
    }
    forall p | p in s.told
      ensures p in Written(s)
    {
      assert Gone(s, p) && ChunkOk(s.chunks[p.0], p.0, |s.chunks|, s.front, |s.log|);
    }
  }

  lemma AddsUp(a: set<Slot>, b: set<Slot>, c: set<Slot>, all: set<Slot>)
    requires a <= all && b <= all && c <= all && all <= a + b + c && a !! b && a !! c && b !! c
    ensures |a| + |b| + |c| == |all|
  {
    assert all == a + b + c && (a + b) !! c;
  }

  /** Delivered, told and unread add up to what was ever stored. */
  lemma BookedAddsUp(s: State)
    requires Inv(s) && BooksOk(s) && AllBooked(s)
    ensures |s.delivered| + |s.told| + |UnreadSlots(s)| == |Written(s)|
  {
    var given, unread, all := GivenSlots(s.delivered), UnreadSlots(s), Written(s);
    GivenDistinct(s.delivered);
    AllWritten(s);
    forall p | p in all
      ensures p in given + s.told + unread && !(p in given && p in s.told)
      ensures !(p in given && p in unread) && !(p in s.told && p in unread)
    {
      BookedOnce(s, p);
    }
    AddsUp(given, s.told, unread, all);
  }
}
