/**
 What every interleaving of group reads, enqueues and expiry passes keeps: the cursor never
 goes back, no item goes to two members, and nothing that survives is passed over. Each
 result says exactly which step breaks it, and a concrete run shows that the step exists.
 */
module GroupTheorems {
  import opened QueueTypes
  import opened GroupSteps

  /** The state after the first `n` steps. */
  ghost function Point(kind: Kind, acts: seq<Action>, n: nat): State
    requires n <= |acts|
  {
    Run(Start(kind), acts[..n])
  }

  lemma PointStep(kind: Kind, acts: seq<Action>, n: nat)
    requires n < |acts|
    ensures Point(kind, acts, n + 1) == Next(Point(kind, acts, n), acts[n])
  {
    assert acts[..n + 1][..n] == acts[..n];
  }

  ghost predicate StaleAt(kind: Kind, acts: seq<Action>, n: nat)
    requires n < |acts|
  {
    StaleInstall(Point(kind, acts, n), acts[n])
  }

  ghost predicate NoStaleInstall(kind: Kind, acts: seq<Action>) {
    forall n :: 0 <= n < |acts| ==> !StaleAt(kind, acts, n)
  }

  lemma InvNext(kind: Kind, acts: seq<Action>, n: nat)
    requires n < |acts| && Inv(Point(kind, acts, n)) && !StaleAt(kind, acts, n)
    ensures Inv(Point(kind, acts, n + 1))
  {
    PointStep(kind, acts, n);
    StepKeeps(Point(kind, acts, n), acts[n]);
  }

  lemma {:induction false} PointInv(kind: Kind, acts: seq<Action>, n: nat)
    requires n <= |acts| && forall m :: 0 <= m < n ==> !StaleAt(kind, acts, m)
    ensures Inv(Point(kind, acts, n))
  {
    if n > 0 {
      PointInv(kind, acts, n - 1);
      InvNext(kind, acts, n - 1);
    }
  }

  /** The states of a run, one more than its steps. */
  ghost function Trace(kind: Kind, acts: seq<Action>): (states: seq<State>)
    ensures |states| == |acts| + 1
    ensures forall n :: 0 <= n <= |acts| ==> states[n] == Point(kind, acts, n)
  {
    seq(|acts| + 1, n requires 0 <= n <= |acts| => Point(kind, acts, n))
  }

  // ---------- at most once, in log order ----------

  /** The log position of a delivery. */
  ghost function LogPosition(s: State, d: Delivery): nat
    requires d.k < |s.chunks|
  {
    s.chunks[d.k].base + d.i
  }

  /** Deliveries, whoever took them, are distinct log entries in log order. */
  ghost predicate DeliversInLogOrder(s: State) {
    && (forall x :: 0 <= x < |s.delivered| ==>
          var d := s.delivered[x];
          && d.k < |s.chunks| && LogPosition(s, d) < |s.log|
          && s.log[LogPosition(s, d)] == d.item)
    && (forall x, y :: 0 <= x < y < |s.delivered| ==>
          LogPosition(s, s.delivered[x]) < LogPosition(s, s.delivered[y]))
  }

  lemma InvDeliversInLogOrder(s: State)
    requires Inv(s)
    ensures DeliversInLogOrder(s)
  {
    assert forall x :: 0 <= x < |s.delivered| ==> Behind(s, s.delivered[x]);
    forall x, y | 0 <= x < y < |s.delivered|
      ensures LogPosition(s, s.delivered[x]) < LogPosition(s, s.delivered[y])
    {
      var d, e := s.delivered[x], s.delivered[y];
      assert Earlier(s.delivered, x, y);
      assert d.k < e.k ==> Apart(s.chunks, d.k, e.k);
    }
  }

  /** At every point of every interleaving without a stale install. */
  lemma AtMostOnceInLogOrder(kind: Kind, acts: seq<Action>)
    requires NoStaleInstall(kind, acts)
    ensures forall n :: 0 <= n <= |acts| ==> DeliversInLogOrder(Trace(kind, acts)[n])
  {
    forall n | 0 <= n <= |acts|
      ensures DeliversInLogOrder(Trace(kind, acts)[n])
    {
      PointInv(kind, acts, n);
      InvDeliversInLogOrder(Point(kind, acts, n));
    }
  }

  // ---------- the cursor never comes back to a place it left ----------

  /** How one step moves the cursor: not at all, to nothing, or strictly on. */
  ghost predicate Advances(s: State, s': State) {
    || (s'.cursor == s.cursor && s'.last == s.last)
    || (s'.cursor.Nil? && s'.last == s.last)
    || (s'.cursor.At? && s'.last == s'.cursor
        && (s.last.At? ==> Before(s.last.k, s.last.i, s'.cursor.k, s'.cursor.i)))
  }

  lemma StepAdvances(s: State, a: Action)
    requires Inv(s) && !StaleInstall(s, a)
    ensures Advances(s, Next(s, a))
  {
    if a.Member? {
      var pc := s.PcOf(a.t);
      assert PcOk(s, pc);
      if pc.HaveNext? {
        assert ChunkOk(s.chunks[pc.k], pc.k, |s.chunks|, s.front, |s.log|);
      }
    } else if a.EndPass? && s.cursor.At? {
      assert ChunkOk(s.chunks[s.cursor.k], s.cursor.k, |s.chunks|, s.front, |s.log|);
    }
  }

  ghost predicate Left(s: State, c: Cur)
    requires c.At?
  {
    s.last.At? && (Before(c.k, c.i, s.last.k, s.last.i) || (s.last == c && s.cursor.Nil?))
  }

  ghost predicate StepsOn(states: seq<State>, n: nat)
    requires n < |states| - 1
  {
    Advances(states[n], states[n + 1])
  }

  ghost predicate OnwardTrace(states: seq<State>) {
    && (forall n :: 0 <= n < |states| ==> CursorOk(states[n]))
    && (forall n :: 0 <= n < |states| - 1 ==> StepsOn(states, n))
  }

  lemma {:induction false} LeavesFrom(states: seq<State>, p: nat, q: nat)
    requires OnwardTrace(states) && p <= q < |states|
    requires states[p].cursor.At? && states[q].cursor != states[p].cursor
    ensures Left(states[q], states[p].cursor)
    decreases q
  {
    assert StepsOn(states, q - 1);
    if states[q - 1].cursor != states[p].cursor {
      LeavesFrom(states, p, q - 1);
    }
  }

  lemma {:induction false} StaysLeft(states: seq<State>, c: Cur, q: nat, r: nat)
    requires OnwardTrace(states) && q <= r < |states| && c.At? && Left(states[q], c)
    ensures Left(states[r], c)
    decreases r
  {
    if q < r {
      StaysLeft(states, c, q, r - 1);
      assert StepsOn(states, r - 1);
    }
  }

  lemma PointsAdvance(kind: Kind, acts: seq<Action>)
    requires NoStaleInstall(kind, acts)
    ensures OnwardTrace(Trace(kind, acts))
  {
    forall n | 0 <= n <= |acts|
      ensures CursorOk(Point(kind, acts, n))
      ensures n < |acts| ==> Advances(Point(kind, acts, n), Point(kind, acts, n + 1))
    {
      PointInv(kind, acts, n);
      if n < |acts| {
        PointStep(kind, acts, n);
        assert !StaleAt(kind, acts, n);
        StepAdvances(Point(kind, acts, n), acts[n]);
      }
    }
  }

  ghost predicate NoReturn(was: Cur, gone: Cur, now: Cur) {
    was.At? && gone != was && now.At? ==> Before(was.k, was.i, now.k, now.i)
  }

  /** Once the cursor has left a place, every later place is further on: a snapshot that went
      stale can never match again. */
  ghost predicate NeverReturns(states: seq<State>) {
    forall p, q, r :: 0 <= p <= q <= r < |states| ==>
      NoReturn(states[p].cursor, states[q].cursor, states[r].cursor)
  }

  lemma OnwardNeverReturns(states: seq<State>)
    requires OnwardTrace(states)
    ensures NeverReturns(states)
  {
    forall p, q, r | 0 <= p <= q <= r < |states|
      ensures NoReturn(states[p].cursor, states[q].cursor, states[r].cursor)
    {
      if states[p].cursor.At? && states[q].cursor != states[p].cursor {
        LeavesFrom(states, p, q);
        StaysLeft(states, states[p].cursor, q, r);
      }
    }
  }

  lemma LastFollowsCursor(s: State, a: Action)
    ensures Next(s, a).last == s.last || Next(s, a).last == Next(s, a).cursor
  {
  }

  lemma {:induction false} LastWasCursor(kind: Kind, acts: seq<Action>, n: nat)
    requires n <= |acts| && Point(kind, acts, n).last.At?
    ensures exists p :: 0 <= p <= n && Point(kind, acts, p).cursor == Point(kind, acts, n).last
  {
    if n > 0 {
      PointStep(kind, acts, n - 1);
      LastFollowsCursor(Point(kind, acts, n - 1), acts[n - 1]);
      if Point(kind, acts, n).last == Point(kind, acts, n - 1).last {
        LastWasCursor(kind, acts, n - 1);
      }
    }
  }

  lemma CursorLeadsLast(s: State, a: Action)
    ensures
      var s' := Next(s, a);
      (s'.cursor == s.cursor && s'.last == s.last) || s'.cursor.Nil? || s'.cursor == s'.last
  {
  }

  lemma {:induction false} CursorIsLast(kind: Kind, acts: seq<Action>, n: nat)
    requires n <= |acts| && Point(kind, acts, n).cursor.At?
    ensures Point(kind, acts, n).last == Point(kind, acts, n).cursor
  {
    if n > 0 {
      PointStep(kind, acts, n - 1);
      CursorLeadsLast(Point(kind, acts, n - 1), acts[n - 1]);
      if Point(kind, acts, n).cursor == Point(kind, acts, n - 1).cursor {
        CursorIsLast(kind, acts, n - 1);
      }
    }
  }

  lemma InstallMoves(s: State, a: Action)
    requires StaleInstall(s, a)
    ensures Next(s, a).cursor == At(s.PcOf(a.t).f, 0)
  {
  }

  lemma StaleReturns(kind: Kind, acts: seq<Action>, n: nat)
    requires n < |acts| && StaleAt(kind, acts, n)
    ensures !NeverReturns(Trace(kind, acts))
  {
    var states := Trace(kind, acts);
    PointStep(kind, acts, n);
    InstallMoves(states[n], acts[n]);
    LastWasCursor(kind, acts, n);
    var p :| 0 <= p <= n && Point(kind, acts, p).cursor == Point(kind, acts, n).last;
    if states[n].cursor.Nil? {
      assert !NoReturn(states[p].cursor, states[n].cursor, states[n + 1].cursor);
    } else {
      CursorIsLast(kind, acts, n);
      assert !NoReturn(states[n].cursor, states[n + 1].cursor, states[n + 1].cursor);
    }
  }

  /** The cursor is monotone, with no ABA, exactly in the runs without a stale install. */
  lemma NeverReturnsIff(kind: Kind, acts: seq<Action>)
    ensures NeverReturns(Trace(kind, acts)) <==> NoStaleInstall(kind, acts)
  {
    if NoStaleInstall(kind, acts) {
      PointsAdvance(kind, acts);
      OnwardNeverReturns(Trace(kind, acts));
    } else {
      var n :| 0 <= n < |acts| && StaleAt(kind, acts, n);
      StaleReturns(kind, acts, n);
    }
  }

  // ---------- what rules a stale install out ----------

  /** What an install could test under the cursor's lock: there is still no position, and the
      chunk has not been pooled since it was fetched. */
  ghost predicate Guarded(s: State, a: Action) {
    Installs(s, a) ==>
      && s.cursor.Nil? && s.PcOf(a.t).f < |s.chunks| && !s.chunks[s.PcOf(a.t).f].pooled
  }

  ghost predicate GuardedAt(kind: Kind, acts: seq<Action>, n: nat)
    requires n < |acts|
  {
    Guarded(Point(kind, acts, n), acts[n])
  }

  lemma GuardedIsFresh(s: State, a: Action)
    requires Inv(s) && Guarded(s, a)
    ensures !StaleInstall(s, a)
  {
    if Installs(s, a) {
      var f := s.PcOf(a.t).f;
      assert ChunkOk(s.chunks[f], f, |s.chunks|, s.front, |s.log|);
    }
  }

  lemma {:induction false} GuardedUpTo(kind: Kind, acts: seq<Action>, n: nat)
    requires n <= |acts| && forall m :: 0 <= m < n ==> GuardedAt(kind, acts, m)
    ensures forall m :: 0 <= m < n ==> !StaleAt(kind, acts, m)
  {
    if n > 0 {
      GuardedUpTo(kind, acts, n - 1);
      PointInv(kind, acts, n - 1);
      assert GuardedAt(kind, acts, n - 1);
      GuardedIsFresh(Point(kind, acts, n - 1), acts[n - 1]);
    }
  }

  /** With that test the cursor never goes back and no item goes to two readers. */
  lemma GuardedInstallsSuffice(kind: Kind, acts: seq<Action>)
    requires forall n :: 0 <= n < |acts| ==> GuardedAt(kind, acts, n)
    ensures NeverReturns(Trace(kind, acts))
    ensures forall n :: 0 <= n <= |acts| ==> DeliversInLogOrder(Trace(kind, acts)[n])
  {
    GuardedUpTo(kind, acts, |acts|);
    NeverReturnsIff(kind, acts);
    AtMostOnceInLogOrder(kind, acts);
  }

  ghost predicate OnlyReader(acts: seq<Action>, r: Tid) {
    forall n :: 0 <= n < |acts| && acts[n].Member? ==> acts[n].t == r
  }

  /** A group, or a consumer with a single reading goroutine. */
  ghost predicate Exclusive(kind: Kind, acts: seq<Action>) {
    kind.OfConsumer? ==> exists r :: OnlyReader(acts, r)
  }

  ghost predicate NilWhileStarting(s: State, r: Tid) {
    && (forall t :: t in s.threads ==> t == r)
    && (s.PcOf(r).InitFetch? || s.PcOf(r).InitHave? ==> s.cursor.Nil?)
  }

  lemma StepStaysNil(s: State, a: Action, r: Tid)
    requires NilWhileStarting(s, r) && (a.Member? ==> a.t == r)
    ensures NilWhileStarting(Next(s, a), r)
  {
  }

  lemma {:induction false} OneReaderStartsAtNil(kind: Kind, acts: seq<Action>, n: nat, r: Tid)
    requires n <= |acts| && OnlyReader(acts, r)
    ensures NilWhileStarting(Point(kind, acts, n), r)
  {
    if n > 0 {
      OneReaderStartsAtNil(kind, acts, n - 1, r);
      PointStep(kind, acts, n - 1);
      StepStaysNil(Point(kind, acts, n - 1), acts[n - 1], r);
    }
  }

  lemma ExclusiveInstallsAtNil(kind: Kind, acts: seq<Action>, n: nat)
    requires n < |acts| && Exclusive(kind, acts) && Installs(Point(kind, acts, n), acts[n])
    requires Point(kind, acts, n).kind == kind
    ensures Point(kind, acts, n).cursor.Nil?
  {
    if kind.OfConsumer? {
      var r :| OnlyReader(acts, r);
      OneReaderStartsAtNil(kind, acts, n, r);
    }
  }

  lemma NextKind(s: State, a: Action)
    ensures Next(s, a).kind == s.kind
  {
  }

  lemma {:induction false} PointKind(kind: Kind, acts: seq<Action>, n: nat)
    requires n <= |acts|
    ensures Point(kind, acts, n).kind == kind
  {
    if n > 0 {
      PointKind(kind, acts, n - 1);
      PointStep(kind, acts, n - 1);
      NextKind(Point(kind, acts, n - 1), acts[n - 1]);
    }
  }

  ghost predicate AtomicAt(kind: Kind, acts: seq<Action>, n: nat)
    requires n < |acts|
  {
    acts[n].Member? && Point(kind, acts, n).PcOf(acts[n].t).InitHave? ==> n > 0 && acts[n - 1] == acts[n]
  }

  /** Every install comes straight after the fetch of the same goroutine. */
  ghost predicate AtomicInit(kind: Kind, acts: seq<Action>) {
    forall n :: 0 <= n < |acts| ==> AtomicAt(kind, acts, n)
  }

  /** What has just been fetched is the front of the list. */
  lemma FetchedIsFront(s: State, t: Tid)
    requires Next(s, Member(t)).PcOf(t).InitHave?
    ensures Next(s, Member(t)).PcOf(t).f == Next(s, Member(t)).front < |Next(s, Member(t)).chunks|
  {
  }

  lemma FrontIsFresh(s: State, a: Action)
    requires Inv(s) && s.cursor.Nil? && a.Member? && s.PcOf(a.t).InitHave?
    requires s.PcOf(a.t).f == s.front < |s.chunks|
    ensures !StaleInstall(s, a)
  {
  }

  lemma AtomicIsFresh(kind: Kind, acts: seq<Action>, n: nat)
    requires n < |acts| && AtomicInit(kind, acts) && Exclusive(kind, acts) && Inv(Point(kind, acts, n))
    ensures !StaleAt(kind, acts, n)
  {
    var s := Point(kind, acts, n);
    assert AtomicAt(kind, acts, n);
    if Installs(s, acts[n]) {
      PointStep(kind, acts, n - 1);
      FetchedIsFront(Point(kind, acts, n - 1), acts[n].t);
      PointKind(kind, acts, n);
      ExclusiveInstallsAtNil(kind, acts, n);
      FrontIsFresh(s, acts[n]);
    }
  }

  lemma {:induction false} AtomicUpTo(kind: Kind, acts: seq<Action>, n: nat)
    requires n <= |acts| && AtomicInit(kind, acts) && Exclusive(kind, acts)
    ensures forall m :: 0 <= m < n ==> !StaleAt(kind, acts, m)
  {
    if n > 0 {
      AtomicUpTo(kind, acts, n - 1);
      PointInv(kind, acts, n - 1);
      AtomicIsFresh(kind, acts, n - 1);
    }
  }

  /** Fetching and installing the first element in one go rules a stale install out. */
  lemma AtomicInitIsNeverStale(kind: Kind, acts: seq<Action>)
    requires AtomicInit(kind, acts) && Exclusive(kind, acts)
    ensures NoStaleInstall(kind, acts)
  {
    AtomicUpTo(kind, acts, |acts|);
  }

  // ---------- nothing that survives is passed over ----------

  ghost predicate Gave(ds: seq<Delivery>, k: nat, j: nat) {
    exists x :: 0 <= x < |ds| && ds[x].k == k && ds[x].i == j
  }

  /** The item in slot `(k, j)` was delivered, has expired, or is still ahead of the cursor. */
  ghost predicate Accounted(s: State, k: nat, j: nat)
    requires k < |s.chunks|
  {
    || Gave(s.delivered, k, j)
    || j < s.chunks[k].head
    || s.last.Nil? || !Before(k, j, s.last.k, s.last.i)
  }

  ghost predicate AllAccounted(s: State) {
    forall k, j :: 0 <= k < |s.chunks| && 0 <= j < s.chunks[k].size ==> Accounted(s, k, j)
  }

  /** The step moves to the next chunk although the current one still holds unread items:
      they were put there after the member had tested the size. */
  ghost predicate HastyAdvance(s: State, a: Action) {
    && a.Member? && s.PcOf(a.t).HaveNext?
    && var pc := s.PcOf(a.t);
    && pc.n.Some? && s.cursor == At(pc.k, pc.i) && pc.k < |s.chunks|
    && pc.i < s.chunks[pc.k].size && s.chunks[pc.k].head < s.chunks[pc.k].size
  }

  lemma GaveGrows(ds: seq<Delivery>, more: seq<Delivery>, k: nat, j: nat)
    requires Gave(ds, k, j) && ds <= more
    ensures Gave(more, k, j)
  {
    var x :| 0 <= x < |ds| && ds[x].k == k && ds[x].i == j;
    assert more[x] == ds[x];
  }

  lemma DeliveredOnlyGrows(s: State, a: Action)
    ensures s.delivered <= Next(s, a).delivered
  {
  }

  /** A member's step passes over no live slot, unless it is hasty. */
  lemma MemberPasses(s: State, t: Tid, k: nat, j: nat)
    requires ChunksOk(s) && CursorOk(s) && PcOk(s, s.PcOf(t)) && !HastyAdvance(s, Member(t))
    requires k < |s.chunks| && s.chunks[k].head <= j < s.chunks[k].size
    requires s.last.Nil? || !Before(k, j, s.last.k, s.last.i)
    ensures Accounted(MemberStep(s, t), k, j)
  {
    var s' := MemberStep(s, t);
    assert ChunkOk(s.chunks[k], k, |s.chunks|, s.front, |s.log|);
    match s.PcOf(t)
    case Fetched(k0, i0, item) =>
      if s.cursor == At(k0, i0) {
        assert s'.delivered[|s.delivered|] == Delivery(t, k0, i0, item);
      }
    case HaveNext(k0, i0, n) =>
      assert ChunkOk(s.chunks[k0], k0, |s.chunks|, s.front, |s.log|);
    case _ =>
  }

  /** Nor does any step of a producer or a pass. */
  lemma PassPasses(s: State, a: Action, k: nat, j: nat)
    requires ChunksOk(s) && CursorOk(s) && !a.Member?
    requires k < |s.chunks| && s.chunks[k].head <= j < s.chunks[k].size
    requires s.last.Nil? || !Before(k, j, s.last.k, s.last.i)
    requires k < |Next(s, a).chunks|
    ensures Accounted(Next(s, a), k, j)
  {
    assert ChunkOk(s.chunks[k], k, |s.chunks|, s.front, |s.log|);
  }

  lemma SlotStays(s: State, a: Action, k: nat, j: nat)
    requires Inv(s) && !StaleInstall(s, a) && !HastyAdvance(s, a)
    requires k < |s.chunks| && j < s.chunks[k].size && Accounted(s, k, j)
    requires k < |Next(s, a).chunks| && Grows(s, Next(s, a))
    ensures Accounted(Next(s, a), k, j)
  {
    var s' := Next(s, a);
    DeliveredOnlyGrows(s, a);
    if Gave(s.delivered, k, j) {
      GaveGrows(s.delivered, s'.delivered, k, j);
    } else if j < s.chunks[k].head {
      assert ChunkGrows(s.chunks[k], s'.chunks[k]);
    } else if a.Member? {
      MemberPasses(s, a.t, k, j);
    } else {
      PassPasses(s, a, k, j);
    }
  }

  /** A slot written by this step is ahead of the cursor. */
  lemma NewSlot(s: State, a: Action, k: nat, j: nat)
    requires CursorOk(s) && k < |Next(s, a).chunks| && j < Next(s, a).chunks[k].size
    requires k >= |s.chunks| || j >= s.chunks[k].size
    ensures Accounted(Next(s, a), k, j)
  {
  }

  lemma StepAccounts(s: State, a: Action)
    requires Inv(s) && !StaleInstall(s, a) && AllAccounted(s) && !HastyAdvance(s, a)
    ensures AllAccounted(Next(s, a))
  {
    var s' := Next(s, a);
    StepKeeps(s, a);
    forall k, j | 0 <= k < |s'.chunks| && 0 <= j < s'.chunks[k].size
      ensures Accounted(s', k, j)
    {
      if k < |s.chunks| && j < s.chunks[k].size {
        SlotStays(s, a, k, j);
      } else {
        NewSlot(s, a, k, j);
      }
    }
  }

  lemma HastyLoses(s: State, a: Action)
    requires Inv(s) && HastyAdvance(s, a)
    ensures !AllAccounted(Next(s, a))
  {
    var s', pc := Next(s, a), s.PcOf(a.t);
    assert PcOk(s, pc);
    var j := Max(pc.i, s.chunks[pc.k].head);
    assert ChunkOk(s.chunks[pc.k], pc.k, |s.chunks|, s.front, |s.log|);
    assert forall x :: 0 <= x < |s.delivered| ==> Behind(s, s.delivered[x]);
    assert !Accounted(s', pc.k, j);
  }

  lemma {:induction false} PointAccounts(kind: Kind, acts: seq<Action>, n: nat)
    requires n <= |acts| && NoStaleInstall(kind, acts)
    requires forall m :: 0 <= m < |acts| ==> !HastyAdvance(Point(kind, acts, m), acts[m])
    ensures AllAccounted(Point(kind, acts, n))
  {
    if n > 0 {
      PointAccounts(kind, acts, n - 1);
      PointInv(kind, acts, n - 1);
      PointStep(kind, acts, n - 1);
      assert !StaleAt(kind, acts, n - 1);
      StepAccounts(Point(kind, acts, n - 1), acts[n - 1]);
    }
  }

  /** At every point of a run each item is delivered, expired or still ahead, exactly when no
      member moves on from a chunk that was filled behind its back. */
  lemma NothingPassedOverIff(kind: Kind, acts: seq<Action>)
    requires NoStaleInstall(kind, acts)
    ensures (forall n :: 0 <= n <= |acts| ==> AllAccounted(Point(kind, acts, n)))
       <==> (forall n :: 0 <= n < |acts| ==> !HastyAdvance(Point(kind, acts, n), acts[n]))
  {
    if forall n :: 0 <= n < |acts| ==> !HastyAdvance(Point(kind, acts, n), acts[n]) {
      forall n | 0 <= n <= |acts|
        ensures AllAccounted(Point(kind, acts, n))
      {
        PointAccounts(kind, acts, n);
      }
    } else {
      var n :| 0 <= n < |acts| && HastyAdvance(Point(kind, acts, n), acts[n]);
      PointInv(kind, acts, n);
      PointStep(kind, acts, n);
      HastyLoses(Point(kind, acts, n), acts[n]);
      assert !AllAccounted(Point(kind, acts, n + 1));
    }
  }
}
