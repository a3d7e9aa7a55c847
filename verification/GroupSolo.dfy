/**
 A member that runs TryRead without interference: its steps amount to one read of the first
 live item at or after the shared cursor, the operation that the log specifies.
 */
module GroupSolo {
  import opened QueueTypes
  import opened GroupSteps

  /** The first live slot at or after `(k, i)`. */
  ghost function FirstLive(s: State, k: nat, i: nat): (slot: Option<(nat, nat)>)
    ensures slot.Some? ==>
      && slot.value.0 < |s.chunks| && s.chunks[slot.value.0].head <= slot.value.1 < s.chunks[slot.value.0].size
      && !Before(slot.value.0, slot.value.1, k, i)
    decreases |s.chunks| - k
  {
    if k >= |s.chunks| then None
    else if Max(i, s.chunks[k].head) < s.chunks[k].size then Some((k, Max(i, s.chunks[k].head)))
    else FirstLive(s, k + 1, 0)
  }

  /** Nothing live lies between the starting point and the slot found. */
  lemma {:induction false} FirstLiveIsFirst(s: State, k: nat, i: nat, k': nat, i': nat)
    requires k' < |s.chunks| && s.chunks[k'].head <= i' < s.chunks[k'].size && !Before(k', i', k, i)
    ensures FirstLive(s, k, i).Some?
    ensures !Before(k', i', FirstLive(s, k, i).value.0, FirstLive(s, k, i).value.1)
    decreases |s.chunks| - k
  {
    if Max(i, s.chunks[k].head) >= s.chunks[k].size {
      FirstLiveIsFirst(s, k + 1, 0, k', i');
    }
  }

  function Solo(s: State, t: Tid, n: nat): State
    decreases n
  {
    if n == 0 then s else Solo(MemberStep(s, t), t, n - 1)
  }

  /** `n` steps of member `t` alone lead from `s` to `s'`. */
  ghost predicate Leads(s: State, t: Tid, s': State) {
    exists n: nat :: Solo(s, t, n) == s'
  }

  lemma LeadsNowhere(s: State, t: Tid)
    ensures Leads(s, t, s)
  {
    assert Solo(s, t, 0) == s;
  }

  /** One step in front of a solo run. */
  lemma StepLeads(s: State, t: Tid, mid: State, s': State)
    requires MemberStep(s, t) == mid && Leads(mid, t, s')
    ensures Leads(s, t, s')
  {
    var n: nat :| Solo(mid, t, n) == s';
    assert Solo(s, t, n + 1) == s';
  }

  lemma HopLeads(s: State, t: Tid, a: PC, b: PC, s': State)
    requires MemberStep(s.Goto(t, a), t) == s.Goto(t, a).Goto(t, b) && Leads(s.Goto(t, b), t, s')
    ensures Leads(s.Goto(t, a), t, s')
  {
    assert s.threads[t := a][t := b] == s.threads[t := b];
    StepLeads(s.Goto(t, a), t, s.Goto(t, b), s');
  }

  /** Nobody else is at work, and the cursor stands at `(k, i)` of a listed chunk. */
  ghost predicate Quiet(s: State, k: nat, i: nat) {
    Inv(s) && s.lock.Free? && s.cursor == At(k, i) && s.front <= k < |s.chunks|
  }

  lemma Listed(s: State, k: nat)
    requires ChunksOk(s) && s.lock.Free? && s.front <= k < |s.chunks|
    ensures
      var c := s.chunks[k];
      && !c.pooled && c.head < c.size && c.base + c.size <= |s.log|
      && c.next == if k < |s.chunks| - 1 then Some(k + 1) else None
  {
    assert ChunkOk(s.chunks[k], k, |s.chunks|, s.front, |s.log|);
    assert Healthy(s.chunks[k], k, |s.chunks|, s.front, s.lock);
  }

  /** The outcome of a read that finds the slot `(k, i)`. */
  ghost function Delivered(s: State, t: Tid, k: nat, i: nat): State
    requires k < |s.chunks| && s.chunks[k].base + i < |s.log|
  {
    s.Move(At(k, i + 1)).(delivered := s.delivered + [Delivery(t, k, i, s.log[s.chunks[k].base + i])]).Goto(t, Idle)
  }

  lemma ToSlot(s: State, t: Tid, k: nat, i: nat, s': State)
    requires Quiet(s, k, i) && i < s.chunks[k].size && Leads(s.Goto(t, InSize(k, i)), t, s')
    ensures Leads(s.Goto(t, Loop), t, s')
  {
    Listed(s, k);
    HopLeads(s, t, Unpooled(k, i), InSize(k, i), s');
    HopLeads(s, t, Snap(k, i), Unpooled(k, i), s');
    HopLeads(s, t, Loop, Snap(k, i), s');
  }

  lemma SoloTakes(s: State, t: Tid, k: nat, i: nat)
    requires Quiet(s, k, i) && s.chunks[k].head <= i < s.chunks[k].size
    ensures s.chunks[k].base + i < |s.log| && Leads(s.Goto(t, Loop), t, Delivered(s, t, k, i))
  {
    Listed(s, k);
    var pc := Fetched(k, i, s.log[s.chunks[k].base + i]);
    var s' := Delivered(s, t, k, i);
    LeadsNowhere(s', t);
    assert s.threads[t := pc][t := Idle] == s.threads[t := Idle];
    StepLeads(s.Goto(t, pc), t, s', s');
    HopLeads(s, t, InSize(k, i), pc, s');
    ToSlot(s, t, k, i, s');
  }

  /** Where a reader goes from an expired slot. */
  ghost function SkipTo(s: State, k: nat, i: nat): nat
    requires k < |s.chunks|
  {
    if s.kind.OfGroup? then i + 1 else s.chunks[k].head
  }

  lemma SoloSkips(s: State, t: Tid, k: nat, i: nat, s': State)
    requires Quiet(s, k, i) && i < s.chunks[k].head
    requires Leads(s.Move(At(k, SkipTo(s, k, i))).Goto(t, Loop), t, s')
    ensures Leads(s.Goto(t, Loop), t, s')
  {
    Listed(s, k);
    var pc := Skip(k, i, SkipTo(s, k, i));
    assert s.threads[t := pc][t := Loop] == s.threads[t := Loop];
    StepLeads(s.Goto(t, pc), t, s.Move(At(k, SkipTo(s, k, i))).Goto(t, Loop), s');
    HopLeads(s, t, Missed(k, i), pc, s');
    HopLeads(s, t, InSize(k, i), Missed(k, i), s');
    ToSlot(s, t, k, i, s');
  }

  lemma ToEnd(s: State, t: Tid, k: nat, i: nat, s': State)
    requires Quiet(s, k, i) && i >= s.chunks[k].size
    requires Leads(s.Goto(t, HaveNext(k, i, s.chunks[k].next)), t, s')
    ensures Leads(s.Goto(t, Loop), t, s')
  {
    Listed(s, k);
    HopLeads(s, t, AtEnd(k, i), HaveNext(k, i, s.chunks[k].next), s');
    HopLeads(s, t, Unpooled(k, i), AtEnd(k, i), s');
    HopLeads(s, t, Snap(k, i), Unpooled(k, i), s');
    HopLeads(s, t, Loop, Snap(k, i), s');
  }

  lemma SoloMovesOn(s: State, t: Tid, k: nat, i: nat, s': State)
    requires Quiet(s, k, i) && i >= s.chunks[k].size && k < |s.chunks| - 1
    requires Leads(s.Move(At(k + 1, 0)).Goto(t, Loop), t, s')
    ensures Leads(s.Goto(t, Loop), t, s')
  {
    Listed(s, k);
    var pc := HaveNext(k, i, Some(k + 1));
    assert s.threads[t := pc][t := Loop] == s.threads[t := Loop];
    StepLeads(s.Goto(t, pc), t, s.Move(At(k + 1, 0)).Goto(t, Loop), s');
    ToEnd(s, t, k, i, s');
  }

  lemma SoloFindsNothing(s: State, t: Tid, k: nat, i: nat)
    requires Quiet(s, k, i) && i >= s.chunks[k].size && k == |s.chunks| - 1
    ensures Leads(s.Goto(t, Loop), t, s.Goto(t, Idle))
  {
    Listed(s, k);
    LeadsNowhere(s.Goto(t, Idle), t);
    HopLeads(s, t, HaveNext(k, i, None), Idle, s.Goto(t, Idle));
    ToEnd(s, t, k, i, s.Goto(t, Idle));
  }

  /** The cursor may be moved on in a quiet state. */
  lemma QuietMoves(s: State, k: nat, i: nat, k': nat, i': nat)
    requires Quiet(s, k, i) && Before(k, i, k', i') && k' < |s.chunks| && i' <= s.chunks[k'].size
    ensures Quiet(s.Move(At(k', i')), k', i')
  {
    var s' := s.Move(At(k', i'));
    ThreadsGrow(s, s');
    DeliveredGrows(s, s');
  }

  /** What a member alone arrives at: the first live item, or the last place in the list. */
  ghost predicate ReadAlone(s: State, t: Tid, k: nat, i: nat, s': State) {
    match FirstLive(s, k, i)
    case Some((k', i')) => s.chunks[k'].base + i' < |s.log| && s' == Delivered(s, t, k', i')
    case None => s'.PcOf(t) == Idle && s'.delivered == s.delivered && s'.chunks == s.chunks
  }

  lemma FirstLiveMoved(s: State, m: State, k: nat, i: nat)
    requires m.chunks == s.chunks
    ensures FirstLive(m, k, i) == FirstLive(s, k, i)
    decreases |s.chunks| - k
  {
  }

  lemma ReadAloneMoved(s: State, t: Tid, k: nat, i: nat, k': nat, i': nat, s': State)
    requires ReadAlone(s.Move(At(k', i')), t, k', i', s') && FirstLive(s, k, i) == FirstLive(s, k', i')
    ensures ReadAlone(s, t, k, i, s')
  {
    FirstLiveMoved(s, s.Move(At(k', i')), k', i');
  }

  ghost predicate ReadsAlone(s: State, t: Tid, k: nat, i: nat) {
    exists s' :: Leads(s.Goto(t, Loop), t, s') && ReadAlone(s, t, k, i, s')
  }

  lemma SkipReads(s: State, t: Tid, k: nat, i: nat)
    requires Quiet(s, k, i) && i < s.chunks[k].head
    requires ReadsAlone(s.Move(At(k, SkipTo(s, k, i))), t, k, SkipTo(s, k, i))
    ensures ReadsAlone(s, t, k, i)
  {
    var to := SkipTo(s, k, i);
    var m := s.Move(At(k, to));
    var s' :| Leads(m.Goto(t, Loop), t, s') && ReadAlone(m, t, k, to, s');
    SoloSkips(s, t, k, i, s');
    ReadAloneMoved(s, t, k, i, k, to, s');
  }

  lemma MoveReads(s: State, t: Tid, k: nat, i: nat)
    requires Quiet(s, k, i) && i >= s.chunks[k].size && k < |s.chunks| - 1
    requires ReadsAlone(s.Move(At(k + 1, 0)), t, k + 1, 0)
    ensures ReadsAlone(s, t, k, i)
  {
    var m := s.Move(At(k + 1, 0));
    var s' :| Leads(m.Goto(t, Loop), t, s') && ReadAlone(m, t, k + 1, 0, s');
    SoloMovesOn(s, t, k, i, s');
    ReadAloneMoved(s, t, k, i, k + 1, 0, s');
  }

  /**
   From every quiet state a member alone gets the first live item at or after the cursor,
   leaving the cursor just behind it, and nothing exactly when there is none.
   */
  lemma {:induction false} SoloRead(s: State, t: Tid, k: nat, i: nat)
    requires Quiet(s, k, i) && i <= s.chunks[k].size
    ensures ReadsAlone(s, t, k, i)
    decreases |s.chunks| - k, s.chunks[k].size - i
  {
    Listed(s, k);
    if i < s.chunks[k].head {
      QuietMoves(s, k, i, k, SkipTo(s, k, i));
      SoloRead(s.Move(At(k, SkipTo(s, k, i))), t, k, SkipTo(s, k, i));
      SkipReads(s, t, k, i);
    } else if i < s.chunks[k].size {
      SoloTakes(s, t, k, i);
      assert ReadAlone(s, t, k, i, Delivered(s, t, k, i));
    } else if k < |s.chunks| - 1 {
      QuietMoves(s, k, i, k + 1, 0);
      SoloRead(s.Move(At(k + 1, 0)), t, k + 1, 0);
      MoveReads(s, t, k, i);
    } else {
      SoloFindsNothing(s, t, k, i);
      assert ReadAlone(s, t, k, i, s.Goto(t, Idle));
    }
  }

  // ---------- from the start of TryRead ----------

  /** Where a read begins: at the cursor, or at the front of the list when there is none. */
  ghost function StartOf(s: State): Cur {
    if s.cursor.At? then s.cursor else if s.Listed() then At(s.front, 0) else Nil
  }

  /** What TryRead alone does: it gives up a cursor whose chunk is gone, finds an empty list
      empty, and otherwise reads on from where it begins. */
  ghost predicate TriedAlone(s: State, t: Tid, s': State) {
    var c := StartOf(s);
    if c.Nil? then s' == s.Goto(t, Idle)
    else if c.k < s.front then s' == s.Move(Nil).Goto(t, Idle)
    else ReadAlone(s, t, c.k, c.i, s')
  }

  lemma InstallIsQuiet(s: State)
    requires Inv(s) && s.lock.Free? && s.cursor.Nil? && s.Listed()
    ensures Quiet(s.Move(At(s.front, 0)), s.front, 0)
  {
    var s' := s.Move(At(s.front, 0));
    MoveOk(s, At(s.front, 0));
    ThreadsGrow(s, s');
    DeliveredGrows(s, s');
  }

  lemma SoloInit(s: State, t: Tid, s': State)
    requires s.lock.Free? && s.cursor.Nil? && s.Listed()
    requires Leads(s.Move(At(s.front, 0)).Goto(t, Loop), t, s')
    ensures Leads(s.Goto(t, InitFetch), t, s')
  {
    var m, pc := s.Move(At(s.front, 0)), InitHave(s.front);
    assert s.threads[t := pc][t := Loop] == s.threads[t := Loop];
    StepLeads(s.Goto(t, pc), t, m.Goto(t, Loop), s');
    HopLeads(s, t, InitFetch, pc, s');
  }

  lemma SoloGivesUp(s: State, t: Tid, k: nat, i: nat)
    requires Inv(s) && s.cursor == At(k, i) && k < s.front
    ensures Leads(s.Goto(t, Loop), t, s.Move(Nil).Goto(t, Idle))
  {
    var s', pc := s.Move(Nil).Goto(t, Idle), SawPooled(k);
    assert ChunkOk(s.chunks[k], k, |s.chunks|, s.front, |s.log|);
    LeadsNowhere(s', t);
    assert s.threads[t := pc][t := Idle] == s.threads[t := Idle];
    StepLeads(s.Goto(t, pc), t, s', s');
    HopLeads(s, t, Snap(k, i), pc, s');
    HopLeads(s, t, Loop, Snap(k, i), s');
  }

  lemma SoloFindsNoList(s: State, t: Tid)
    requires s.lock.Free? && s.cursor.Nil? && !s.Listed()
    ensures Leads(s.Goto(t, InitFetch), t, s.Goto(t, Idle))
  {
    LeadsNowhere(s.Goto(t, Idle), t);
    HopLeads(s, t, InitFetch, Idle, s.Goto(t, Idle));
  }

  lemma FirstStep(s: State, t: Tid)
    ensures MemberStep(s.Goto(t, Idle), t) == s.Goto(t, if s.cursor.Nil? then InitFetch else Loop)
  {
    var pc := if s.cursor.Nil? then InitFetch else Loop;
    assert s.threads[t := Idle][t := pc] == s.threads[t := pc];
  }

  /** From every state that the invariant allows with no writer at work, TryRead alone
      delivers the first live item at or after the place where it begins. */
  lemma SoloTryRead(s: State, t: Tid)
    requires Inv(s) && s.lock.Free?
    ensures exists s' :: Leads(MemberStep(s.Goto(t, Idle), t), t, s') && TriedAlone(s, t, s')
  {
    FirstStep(s, t);
    var c := StartOf(s);
    if c.Nil? {
      SoloFindsNoList(s, t);
      assert TriedAlone(s, t, s.Goto(t, Idle));
    } else if c.k < s.front {
      SoloGivesUp(s, t, c.k, c.i);
      assert TriedAlone(s, t, s.Move(Nil).Goto(t, Idle));
    } else if s.cursor.At? {
      SoloRead(s, t, c.k, c.i);
    } else {
      var m := s.Move(c);
      InstallIsQuiet(s);
      SoloRead(m, t, c.k, c.i);
      var s' :| Leads(m.Goto(t, Loop), t, s') && ReadAlone(m, t, c.k, c.i, s');
      SoloInit(s, t, s');
      ReadAloneMoved(s, t, c.k, c.i, c.k, c.i, s');
    }
  }
}
