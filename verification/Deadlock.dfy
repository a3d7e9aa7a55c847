/**
 Any number of goroutines contending for the locks: no reachable state has a cycle of waits,
 so some goroutine can always go on, and every schedule can be driven to the end.
 */
module Deadlock {
  import opened LockOrder

  datatype Instr = Acquire(lock: Lock, mode: Mode) | Release(lock: Lock) | Await(thread: nat)

  function Flatten(p: Prog): seq<Instr> {
    match p
    case Done => []
    case Under(l, m, body, next) => [Acquire(l, m)] + Flatten(body) + [Release(l)] + Flatten(next)
    case Join(t, next) => [Await(t)] + Flatten(next)
  }

  datatype Hold = Hold(lock: Lock, mode: Mode)

  /** `announced` is a writer that has closed the lock to others and waits for its readers. */
  datatype Thread = Thread(todo: seq<Instr>, held: seq<Hold>, announced: bool)

  type State = seq<Thread>

  // ---------- steps ----------

  predicate Claims(th: Thread, l: Lock) {
    Hold(l, Exclusive) in th.held || (th.announced && th.todo != [] && th.todo[0] == Acquire(l, Exclusive))
  }

  /** Thread `t` cannot take its next step because of thread `u`. */
  predicate WaitsFor(s: State, t: nat, u: nat)
    requires t < |s| && u < |s|
  {
    && s[t].todo != []
    && match s[t].todo[0]
       case Acquire(l, m) =>
         if m.Exclusive? && s[t].announced then Hold(l, Shared) in s[u].held
         else Claims(s[u], l)
       case Release(_) => false
       case Await(w) => u == w && s[u].todo != []
  }

  predicate Enabled(s: State, t: nat)
    requires t < |s|
  {
    s[t].todo != [] && forall u :: 0 <= u < |s| ==> !WaitsFor(s, t, u)
  }

  function Advance(th: Thread): Thread
    requires th.todo != []
  {
    var rest := th.todo[1..];
    match th.todo[0]
    case Acquire(l, m) =>
      if m.Exclusive? && !th.announced then th.(announced := true)
      else Thread(rest, th.held + [Hold(l, m)], false)
    case Release(_) => Thread(rest, if th.held == [] then [] else th.held[..|th.held| - 1], false)
    case Await(_) => Thread(rest, th.held, false)
  }

  function Step(s: State, t: nat): State {
    if t < |s| && Enabled(s, t) then s[t := Advance(s[t])] else s
  }

  function Run(s: State, schedule: seq<nat>): State
    decreases |schedule|
  {
    if schedule == [] then s else Run(Step(s, schedule[0]), schedule[1..])
  }

  function Boot(programs: seq<seq<Op>>): State {
    seq(|programs|, t requires 0 <= t < |programs| => Thread(Flatten(Goroutine(programs[t])), [], false))
  }

  // ---------- the invariant ----------

  ghost predicate Below(held: seq<Hold>, rank: nat) {
    forall i :: 0 <= i < |held| ==> Rank(held[i].lock) < rank
  }

  /** The rest of a program, taken up with `held` in hand, respects the ranks. */
  ghost predicate Runs(held: seq<Hold>, todo: seq<Instr>)
    decreases |todo|
  {
    if todo == [] then held == []
    else
      match todo[0]
      case Acquire(l, m) => Below(held, Rank(l)) && Runs(held + [Hold(l, m)], todo[1..])
      case Release(l) =>
        held != [] && held[|held| - 1].lock == l && Runs(held[..|held| - 1], todo[1..])
      case Await(_) => held == [] && Runs(held, todo[1..])
  }

  ghost predicate NoAwait(todo: seq<Instr>) {
    forall i :: 0 <= i < |todo| ==> !todo[i].Await?
  }

  /** Only goroutines that never wait for another goroutine are waited for. */
  ghost predicate AwaitsOk(s: State, todo: seq<Instr>) {
    forall i :: 0 <= i < |todo| && todo[i].Await? ==> todo[i].thread < |s| && NoAwait(s[todo[i].thread].todo)
  }

  ghost predicate ThreadOk(s: State, th: Thread) {
    && Runs(th.held, th.todo) && AwaitsOk(s, th.todo)
    && (th.announced ==> th.todo != [] && th.todo[0].Acquire? && th.todo[0].mode.Exclusive?)
  }

  ghost predicate Ok(s: State) { forall t :: 0 <= t < |s| ==> ThreadOk(s, s[t]) }

  lemma ReleaseRuns(held: seq<Hold>, h: Hold, rest: seq<Instr>)
    requires Runs(held, rest)
    ensures Runs(held + [h], [Release(h.lock)] + rest)
  {
    assert (held + [h])[..|held|] == held;
  }

  lemma AcquireRuns(held: seq<Hold>, l: Lock, m: Mode, rest: seq<Instr>)
    requires Below(held, Rank(l)) && Runs(held + [Hold(l, m)], rest)
    ensures Runs(held, [Acquire(l, m)] + rest)
  {
    assert ([Acquire(l, m)] + rest)[1..] == rest;
  }

  lemma FlattenUnder(p: Prog, rest: seq<Instr>)
    requires p.Under?
    ensures Flatten(p) + rest
         == [Acquire(p.lock, p.mode)] + (Flatten(p.body) + ([Release(p.lock)] + (Flatten(p.next) + rest)))
  {
  }

  lemma {:induction false} FlattenRuns(p: Prog, floor: nat, js: set<nat>, held: seq<Hold>, rest: seq<Instr>)
    requires Ordered(p, floor, js) && Runs(held, rest) && Below(held, floor)
    ensures Runs(held, Flatten(p) + rest)
    decreases p
  {
    match p
    case Done => assert Flatten(p) + rest == rest;
    case Under(l, m, body, next) =>
      var tail := Flatten(next) + rest;
      var after := [Release(l)] + tail;
      FlattenRuns(next, floor, js, held, rest);
      ReleaseRuns(held, Hold(l, m), tail);
      FlattenRuns(body, Rank(l) + 1, js, held + [Hold(l, m)], after);
      AcquireRuns(held, l, m, Flatten(body) + after);
      FlattenUnder(p, rest);
    case Join(t, next) =>
      FlattenRuns(next, floor, js, held, rest);
      assert held == [];
      assert (Flatten(p) + rest)[1..] == Flatten(next) + rest;
  }

  lemma AdvanceOk(s: State, t: nat)
    requires t < |s| && Ok(s) && s[t].todo != []
    ensures ThreadOk(s, Advance(s[t]))
  {
    var th := s[t];
    assert ThreadOk(s, th);
    assert forall i :: 0 <= i < |th.todo[1..]| ==> th.todo[1..][i] == th.todo[i + 1];
  }

  lemma StepOk(s: State, t: nat)
    requires Ok(s)
    ensures Ok(Step(s, t))
  {
    var s' := Step(s, t);
    if s' != s {
      AdvanceOk(s, t);
      assert NoAwait(s[t].todo) ==> NoAwait(s'[t].todo);
      forall u | 0 <= u < |s'|
        ensures ThreadOk(s', s'[u])
      {
        assert ThreadOk(s, s[u]);
      }
    }
  }

  lemma {:induction false} RunOk(s: State, schedule: seq<nat>)
    requires Ok(s)
    ensures Ok(Run(s, schedule))
    decreases |schedule|
  {
    if schedule != [] {
      StepOk(s, schedule[0]);
      RunOk(Step(s, schedule[0]), schedule[1..]);
    }
  }

  // ---------- waits go up ----------

  /** How far up the order a thread is: the lock it wants next, an announced writer counting
      above the readers and writers that it keeps out. */
  ghost function Weight(th: Thread): int
    requires th.todo != []
  {
    match th.todo[0]
    case Acquire(l, _) => 2 * Rank(l) + if th.announced then 1 else 0
    case Release(_) => 8
    case Await(_) => -1
  }

  lemma WaitsGoUp(s: State, t: nat, u: nat)
    requires Ok(s) && t < |s| && u < |s| && WaitsFor(s, t, u)
    ensures s[u].todo != [] && Weight(s[t]) < Weight(s[u])
  {
    assert ThreadOk(s, s[t]) && ThreadOk(s, s[u]);
  }

  ghost predicate WaitsForNext(s: State, ts: seq<nat>, i: nat)
    requires i < |ts| - 1 && ts[i] < |s| && ts[i + 1] < |s|
  {
    WaitsFor(s, ts[i], ts[i + 1])
  }

  ghost predicate WaitChain(s: State, ts: seq<nat>) {
    && (forall i :: 0 <= i < |ts| ==> ts[i] < |s|)
    && (forall i :: 0 <= i < |ts| - 1 ==> WaitsForNext(s, ts, i))
  }

  lemma {:induction false} ChainGoesUp(s: State, ts: seq<nat>, i: nat, j: nat)
    requires Ok(s) && WaitChain(s, ts) && i < j < |ts|
    ensures s[ts[i]].todo != [] && s[ts[j]].todo != [] && Weight(s[ts[i]]) + (j - i) <= Weight(s[ts[j]])
    decreases j
  {
    assert WaitsForNext(s, ts, j - 1);
    WaitsGoUp(s, ts[j - 1], ts[j]);
    if i < j - 1 {
      ChainGoesUp(s, ts, i, j - 1);
    }
  }

  /** Waits never form a cycle, and no chain of waits is longer than the ranks allow. */
  lemma NoWaitCycle(s: State, ts: seq<nat>)
    requires Ok(s) && WaitChain(s, ts)
    ensures |ts| <= 10 && forall i, j :: 0 <= i < j < |ts| ==> ts[i] != ts[j]
  {
    forall i, j | 0 <= i < j < |ts|
      ensures ts[i] != ts[j]
    {
      ChainGoesUp(s, ts, i, j);
    }
    if |ts| > 1 {
      ChainGoesUp(s, ts, 0, |ts| - 1);
    }
  }

  /** From any unfinished thread, following the waits leads to one that can go on. */
  lemma {:induction false} FollowWaits(s: State, t: nat)
    requires Ok(s) && t < |s| && s[t].todo != []
    ensures exists e :: 0 <= e < |s| && Enabled(s, e)
    decreases 8 - Weight(s[t])
  {
    if !Enabled(s, t) {
      var u :| 0 <= u < |s| && WaitsFor(s, t, u);
      WaitsGoUp(s, t, u);
      FollowWaits(s, u);
    }
  }

  // ---------- whole runs ----------

  predicate Finished(s: State) { forall t :: 0 <= t < |s| ==> s[t].todo == [] }

  ghost predicate NoClose(ops: seq<Op>) {
    forall i :: 0 <= i < |ops| ==> !ops[i].Close?
  }

  /** Close waits for the expiration worker, which never closes the queue itself. */
  ghost predicate WellFormed(programs: seq<seq<Op>>) {
    forall t, i :: 0 <= t < |programs| && 0 <= i < |programs[t]| && programs[t][i].Close? ==>
      programs[t][i].worker < |programs| && NoClose(programs[programs[t][i].worker])
  }

  lemma {:induction false} FlattenAwaits(p: Prog, floor: nat, js: set<nat>, i: nat)
    requires Ordered(p, floor, js) && i < |Flatten(p)| && Flatten(p)[i].Await?
    ensures Flatten(p)[i].thread in js
  {
    match p
    case Under(l, m, body, next) =>
      var n := |Flatten(body)|;
      if 1 <= i <= n {
        assert Flatten(p)[i] == Flatten(body)[i - 1];
        FlattenAwaits(body, Rank(l) + 1, js, i - 1);
      } else {
        assert i >= n + 2 && Flatten(p)[i] == Flatten(next)[i - n - 2];
        FlattenAwaits(next, floor, js, i - n - 2);
      }
    case Join(t, next) =>
      if i > 0 {
        FlattenAwaits(next, floor, js, i - 1);
      }
  }

  lemma BootThread(ops: seq<Op>, js: set<nat>)
    requires forall i :: 0 <= i < |ops| && ops[i].Close? ==> ops[i].worker in js
    ensures
      var todo := Flatten(Goroutine(ops));
      Runs([], todo) && forall i :: 0 <= i < |todo| && todo[i].Await? ==> todo[i].thread in js
  {
    var p := Goroutine(ops);
    GoroutineOrdered(ops, js);
    FlattenRuns(p, 0, js, [], []);
    assert Flatten(p) + [] == Flatten(p);
    forall i | 0 <= i < |Flatten(p)| && Flatten(p)[i].Await?
      ensures Flatten(p)[i].thread in js
    {
      FlattenAwaits(p, 0, js, i);
    }
  }

  lemma BootOk(programs: seq<seq<Op>>)
    requires WellFormed(programs)
    ensures Ok(Boot(programs))
  {
    var s := Boot(programs);
    var js := set w | 0 <= w < |programs| && NoClose(programs[w]);
    forall w | w in js
      ensures NoAwait(s[w].todo)
    {
      BootThread(programs[w], {});
    }
    forall t | 0 <= t < |s|
      ensures ThreadOk(s, s[t])
    {
      BootThread(programs[t], js);
    }
  }

  ghost function StepsLeft(th: Thread): nat {
    2 * |th.todo| - if th.announced && th.todo != [] then 1 else 0
  }

  /** Steps still to take; an announcement is one of them. */
  ghost function Remaining(s: State): nat {
    if s == [] then 0 else Remaining(s[..|s| - 1]) + StepsLeft(s[|s| - 1])
  }

  lemma {:induction false} AdvanceLeaves(s: State, t: nat, th: Thread)
    requires t < |s|
    ensures Remaining(s[t := th]) == Remaining(s) - StepsLeft(s[t]) + StepsLeft(th)
  {
    var n, s' := |s| - 1, s[t := th];
    if t == n {
      assert s'[..n] == s[..n];
    } else {
      assert s'[..n] == s[..n][t := th];
      AdvanceLeaves(s[..n], t, th);
    }
  }

  /** Every reachable state can be driven to the end of all its operations. */
  lemma {:induction false} Completes(s: State)
    requires Ok(s)
    ensures exists schedule :: Finished(Run(s, schedule))
    decreases Remaining(s)
  {
    if Finished(s) {
      assert Finished(Run(s, []));
    } else {
      var t :| 0 <= t < |s| && s[t].todo != [];
      FollowWaits(s, t);
      var e :| 0 <= e < |s| && Enabled(s, e);
      AdvanceLeaves(s, e, Advance(s[e]));
      StepOk(s, e);
      Completes(Step(s, e));
      var rest :| Finished(Run(Step(s, e), rest));
      assert ([e] + rest)[1..] == rest;
      assert Finished(Run(s, [e] + rest));
    }
  }

  /**
   Whatever operations the goroutines run and however they have been scheduled, no waits form
   a cycle, unless all are finished one of them can go on, and all of them can be finished.
   */
  lemma DeadlockFree(programs: seq<seq<Op>>, schedule: seq<nat>)
    requires WellFormed(programs)
    ensures
      var s := Run(Boot(programs), schedule);
      && (forall ts :: WaitChain(s, ts) ==> forall i, j :: 0 <= i < j < |ts| ==> ts[i] != ts[j])
      && (Finished(s) || exists t :: 0 <= t < |s| && Enabled(s, t))
      && (exists more :: Finished(Run(s, more)))
  {
    var s := Run(Boot(programs), schedule);
    BootOk(programs);
    RunOk(Boot(programs), schedule);
    forall ts | WaitChain(s, ts)
      ensures forall i, j :: 0 <= i < j < |ts| ==> ts[i] != ts[j]
    {
      NoWaitCycle(s, ts);
    }
    if !Finished(s) {
      var t :| 0 <= t < |s| && s[t].todo != [];
      FollowWaits(s, t);
    }
    Completes(s);
  }

  // ---------- the locks do exclude ----------

  ghost predicate Compatible(a: Thread, b: Thread) {
    forall l :: Claims(a, l) ==> !Claims(b, l) && (Hold(l, Exclusive) in a.held ==> Hold(l, Shared) !in b.held)
  }

  /** A writer inside a lock is alone there, and at most one writer is announced. */
  ghost predicate Exclusion(s: State) {
    forall t, u :: 0 <= t < |s| && 0 <= u < |s| && t != u ==> Compatible(s[t], s[u])
  }

  lemma AdvanceCompatible(s: State, t: nat, u: nat)
    requires Ok(s) && t < |s| && u < |s| && t != u && Enabled(s, t)
    requires Compatible(s[t], s[u]) && Compatible(s[u], s[t])
    ensures Compatible(Advance(s[t]), s[u]) && Compatible(s[u], Advance(s[t]))
  {
    var a, a' := s[t], Advance(s[t]);
    assert ThreadOk(s, a) && !WaitsFor(s, t, u);
    assert forall h :: h in a'.held ==>
      h in a.held || (a.todo[0].Acquire? && h == Hold(a.todo[0].lock, a.todo[0].mode));
  }

  lemma StepExclusion(s: State, t: nat)
    requires Ok(s) && Exclusion(s)
    ensures Exclusion(Step(s, t))
  {
    if t < |s| && Enabled(s, t) {
      forall u | 0 <= u < |s| && u != t
        ensures Compatible(Advance(s[t]), s[u]) && Compatible(s[u], Advance(s[t]))
      {
        AdvanceCompatible(s, t, u);
      }
    }
  }

  lemma {:induction false} RunExclusion(s: State, schedule: seq<nat>)
    requires Ok(s) && Exclusion(s)
    ensures Exclusion(Run(s, schedule))
    decreases |schedule|
  {
    if schedule != [] {
      StepOk(s, schedule[0]);
      StepExclusion(s, schedule[0]);
      RunExclusion(Step(s, schedule[0]), schedule[1..]);
    }
  }

  lemma MutualExclusion(programs: seq<seq<Op>>, schedule: seq<nat>)
    requires WellFormed(programs)
    ensures Exclusion(Run(Boot(programs), schedule))
  {
    BootOk(programs);
    RunExclusion(Boot(programs), schedule);
  }

  // ---------- the order matters ----------

  /** AddConsumer as it would be if it took the manager's lock before the queue's. */
  const REVERSED := Under(ManagerLock, Exclusive, Under(QueueLock, Shared, Done, Done), Done)

  /** Beside one expiry pass the reversed order deadlocks. */
  lemma ReversedOrderDeadlocks()
    ensures
      var pass := ProgOf(Cleanup([], true, []));
      var s := Run([Thread(Flatten(REVERSED), [], false), Thread(Flatten(pass), [], false)], [0, 0, 1, 1]);
      !Finished(s) && forall t :: 0 <= t < |s| ==> !Enabled(s, t)
  {
    var pass := ProgOf(Cleanup([], true, []));
    var mine := [Acquire(ManagerLock, Exclusive), Acquire(QueueLock, Shared),
                 Release(QueueLock), Release(ManagerLock)];
    var theirs := [Acquire(QueueLock, Exclusive), Acquire(ManagerLock, Shared),
                   Release(ManagerLock), Release(QueueLock)];
    assert Flatten(REVERSED) == mine;
    assert Flatten(pass) == theirs;
    var s0 := [Thread(mine, [], false), Thread(theirs, [], false)];
    var s1 := [Thread(mine, [], true), Thread(theirs, [], false)];
    var s2 := [Thread(mine[1..], [Hold(ManagerLock, Exclusive)], false), Thread(theirs, [], false)];
    var s3 := [s2[0], Thread(theirs, [], true)];
    var s4 := [s2[0], Thread(theirs[1..], [Hold(QueueLock, Exclusive)], false)];
    assert Enabled(s0, 0) && Enabled(s1, 0) && Enabled(s2, 1) && Enabled(s3, 1);
    assert Advance(s0[0]) == s1[0] && Advance(s1[0]) == s2[0];
    assert Advance(s2[1]) == s3[1] && Advance(s3[1]) == s4[1];
    assert Step(s0, 0) == s1 && Step(s1, 0) == s2 && Step(s2, 1) == s3 && Step(s3, 1) == s4;
    assert [0, 0, 1, 1][1..] == [0, 1, 1] && [0, 1, 1][1..] == [1, 1] && [1, 1][1..] == [1] && [1][1..] == [];
    assert Run(s2, [1, 1]) == s4;
    assert WaitsFor(s4, 0, 1) && WaitsFor(s4, 1, 0);
  }
}
