/**
 What becomes of the readers after a pass with several clock readings. Such a pass can empty
 and unlink a chunk behind one that it keeps. A cursor in the emptied chunk is then sent back to
 the front, and NextElement of a kept chunk may lead to a chunk that is gone.
 */
module ClockRepair {
  import opened QueueTypes
  import opened ClockReadings

  /** A chunk after the pass, by its head and size: one without a live slot is unlinked and
      pooled, but NextElement still leads to it and from it. */
  datatype Span = Span(head: nat, size: nat) {
    predicate Pooled() { head >= size }

    predicate Live(i: nat) { head <= i < size }
  }

  /** The shared shape of a position. */
  datatype Cur = Nil | At(k: nat, i: nat)

  predicate Before(k: nat, i: nat, k': nat, i': nat) { k < k' || (k == k' && i < i') }

  /** The chunks after a pass, in the order in which they were listed before it. */
  function Outcome(heads: seq<nat>, chunks: Chunks, counts: seq<nat>): (spans: seq<Span>)
    requires |heads| == |chunks| && |counts| <= |chunks|
    ensures |spans| == |chunks|
  {
    seq(|chunks|, j requires 0 <= j < |chunks| =>
      Span(heads[j] + (if j < |counts| then counts[j] else 0), heads[j] + |chunks[j]|))
  }

  /** A chunk that is gone lies behind one that was kept. */
  ghost predicate EmptiedBehindKept(spans: seq<Span>) {
    exists j, k :: 0 <= j < k < |spans| && !spans[j].Pooled() && spans[k].Pooled()
  }

  /** The new front of the list. */
  function First(spans: seq<Span>, j: nat): (f: nat)
    requires j <= |spans|
    ensures j <= f <= |spans| && (f < |spans| ==> !spans[f].Pooled())
    ensures forall k :: j <= k < f ==> spans[k].Pooled()
    decreases |spans| - j
  {
    if j == |spans| || !spans[j].Pooled() then j else First(spans, j + 1)
  }

  // ---------- cursor repair ----------

  /** UpdatePositionAfterExpiration; `recorded` says whether the cursor's chunk lost anything. */
  function Repaired(spans: seq<Span>, k: nat, i: nat, recorded: bool): Cur
    requires k < |spans|
  {
    var f := First(spans, 0);
    if f == |spans| then Nil
    else if spans[k].Pooled() then At(f, 0)
    else if recorded && i < spans[k].head then At(k, spans[k].head)
    else At(k, i)
  }

  /** The live slots at or after a position; without a position a reader starts at the front. */
  ghost predicate ToCome(spans: seq<Span>, c: Cur, j: nat, s: nat) {
    j < |spans| && spans[j].Live(s) && (c.At? ==> !Before(j, s, c.k, c.i))
  }

  /** The repair neither skips a survivor nor brings back one that was passed. */
  ghost predicate Exact(spans: seq<Span>, k: nat, i: nat, c: Cur) {
    forall j, s :: ToCome(spans, At(k, i), j, s) <==> ToCome(spans, c, j, s)
  }

  /** Repair is exact for a cursor if and only if its chunk is still there or nothing in front
      of it was kept. */
  lemma RepairExactIff(spans: seq<Span>, k: nat, i: nat, recorded: bool)
    requires k < |spans|
    ensures Exact(spans, k, i, Repaired(spans, k, i, recorded))
       <==> !(spans[k].Pooled() && exists j :: 0 <= j < k && !spans[j].Pooled())
  {
    var f := First(spans, 0);
    if spans[k].Pooled() && exists j :: 0 <= j < k && !spans[j].Pooled() {
      assert ToCome(spans, At(f, 0), f, spans[f].head) && !ToCome(spans, At(k, i), f, spans[f].head);
    }
  }

  /** No cursor is sent back, or forward past a survivor, if and only if no chunk behind a kept
      one was emptied. */
  lemma EveryRepairExactIff(spans: seq<Span>)
    ensures (forall k: nat, i: nat, recorded :: k < |spans| ==> Exact(spans, k, i, Repaired(spans, k, i, recorded)))
       <==> !EmptiedBehindKept(spans)
  {
    if EmptiedBehindKept(spans) {
      var j, k :| 0 <= j < k < |spans| && !spans[j].Pooled() && spans[k].Pooled();
      RepairExactIff(spans, k, 0, true);
      assert !Exact(spans, k, 0, Repaired(spans, k, 0, true));
    } else {
      forall k: nat, i: nat, recorded: bool | k < |spans|
        ensures Exact(spans, k, i, Repaired(spans, k, i, recorded))
      {
        RepairExactIff(spans, k, i, recorded);
      }
    }
  }

  // ---------- reading on ----------

  /** One TryRead from a position: it skips expired slots, follows NextElement from the end of a
      chunk, and gives up its position in a chunk that is gone. */
  function ReadFrom(spans: seq<Span>, k: nat, i: nat): (Cur, Option<(nat, nat)>)
    requires k < |spans|
    decreases |spans| - k
  {
    var c := spans[k];
    if c.Pooled() then (Nil, None)
    else if Max(i, c.head) < c.size then (At(k, Max(i, c.head) + 1), Some((k, Max(i, c.head))))
    else if k + 1 < |spans| then ReadFrom(spans, k + 1, 0)
    else (At(k, i), None)
  }

  /** One TryRead; without a position it starts at the front of the list. */
  function Read(spans: seq<Span>, c: Cur): (Cur, Option<(nat, nat)>)
    requires c.At? ==> c.k < |spans|
  {
    match c
    case At(k, i) => ReadFrom(spans, k, i)
    case Nil => if First(spans, 0) < |spans| then ReadFrom(spans, First(spans, 0), 0) else (Nil, None)
  }

  lemma {:induction false} ReadFromStays(spans: seq<Span>, k: nat, i: nat)
    requires k < |spans|
    ensures
      var (c, got) := ReadFrom(spans, k, i);
      && (c.At? ==> k <= c.k < |spans|)
      && (got.Some? ==> c == At(got.value.0, got.value.1 + 1) && !Before(got.value.0, got.value.1, k, i))
    decreases |spans| - k
  {
    if !spans[k].Pooled() && Max(i, spans[k].head) >= spans[k].size && k + 1 < |spans| {
      ReadFromStays(spans, k + 1, 0);
    }
  }

  lemma ReadStays(spans: seq<Span>, c: Cur)
    requires c.At? ==> c.k < |spans|
    ensures Read(spans, c).0.At? ==> Read(spans, c).0.k < |spans|
  {
    match c
    case At(k, i) => ReadFromStays(spans, k, i);
    case Nil =>
      if First(spans, 0) < |spans| { ReadFromStays(spans, First(spans, 0), 0); }
  }

  /** The slots that `n` reads in a row deliver, and where they leave the cursor. */
  function Reads(spans: seq<Span>, c: Cur, n: nat): (r: (Cur, seq<(nat, nat)>))
    requires c.At? ==> c.k < |spans|
    ensures r.0.At? ==> r.0.k < |spans|
    decreases n
  {
    if n == 0 then (c, [])
    else
      var (c', got) := Reads(spans, c, n - 1);
      var (c'', g) := Read(spans, c');
      ReadStays(spans, c');
      (c'', if g.Some? then got + [g.value] else got)
  }

  ghost predicate Increasing(ps: seq<(nat, nat)>) {
    forall x, y :: 0 <= x < y < |ps| ==> Before(ps[x].0, ps[x].1, ps[y].0, ps[y].1)
  }

  // ---------- without an emptied chunk behind a kept one, reads go on ----------

  /** Where a reader may stand: nowhere, or in a chunk that was kept. */
  ghost predicate Placed(spans: seq<Span>, c: Cur) {
    c.At? ==> c.k < |spans| && !spans[c.k].Pooled()
  }

  lemma {:induction false} ReadFromGoesOn(spans: seq<Span>, k: nat, i: nat)
    requires !EmptiedBehindKept(spans) && k < |spans| && !spans[k].Pooled()
    ensures
      var (c, got) := ReadFrom(spans, k, i);
      && c.At? && Placed(spans, c) && !Before(c.k, c.i, k, i)
      && (got.Some? ==> c == At(got.value.0, got.value.1 + 1) && !Before(got.value.0, got.value.1, k, i))
    decreases |spans| - k
  {
    if Max(i, spans[k].head) >= spans[k].size && k + 1 < |spans| {
      ReadFromGoesOn(spans, k + 1, 0);
    }
  }

  /** A read delivers the first live slot at or after the cursor, and nothing when there is none. */
  lemma {:induction false} ReadIsFirst(spans: seq<Span>, k: nat, i: nat)
    requires !EmptiedBehindKept(spans) && k < |spans| && !spans[k].Pooled()
    ensures
      var got := ReadFrom(spans, k, i).1;
      && (got.None? <==> forall j: nat, s: nat :: !ToCome(spans, At(k, i), j, s))
      && (got.Some? ==>
            && ToCome(spans, At(k, i), got.value.0, got.value.1)
            && forall j: nat, s: nat :: ToCome(spans, At(k, i), j, s) ==> !Before(j, s, got.value.0, got.value.1))
    decreases |spans| - k
  {
    var c := spans[k];
    if Max(i, c.head) < c.size {
      assert ToCome(spans, At(k, i), k, Max(i, c.head));
    } else if k + 1 < |spans| {
      ReadIsFirst(spans, k + 1, 0);
      forall j: nat, s: nat | ToCome(spans, At(k, i), j, s)
        ensures ToCome(spans, At(k + 1, 0), j, s)
      {
      }
      forall j: nat, s: nat | ToCome(spans, At(k + 1, 0), j, s)
        ensures ToCome(spans, At(k, i), j, s)
      {
      }
      var got := ReadFrom(spans, k + 1, 0).1;
      assert got.Some? ==> ToCome(spans, At(k, i), got.value.0, got.value.1);
    } else {
      assert forall j: nat, s: nat :: !ToCome(spans, At(k, i), j, s);
    }
  }

  /** Everything delivered lies before the cursor. */
  ghost predicate BeforeCursor(ps: seq<(nat, nat)>, c: Cur) {
    if c.Nil? then ps == [] else forall x :: 0 <= x < |ps| ==> Before(ps[x].0, ps[x].1, c.k, c.i)
  }

  lemma {:induction false} ReadsGoOn(spans: seq<Span>, c: Cur, n: nat)
    requires !EmptiedBehindKept(spans) && Placed(spans, c)
    ensures
      var (c', got) := Reads(spans, c, n);
      Placed(spans, c') && BeforeCursor(got, c') && Increasing(got)
    decreases n
  {
    if n > 0 {
      ReadsGoOn(spans, c, n - 1);
      var c' := Reads(spans, c, n - 1).0;
      if c'.At? {
        ReadFromGoesOn(spans, c'.k, c'.i);
      } else if First(spans, 0) < |spans| {
        ReadFromGoesOn(spans, First(spans, 0), 0);
      }
    }
  }

  // ---------- with one, they come round again ----------

  lemma {:induction false} ReadsFront(spans: seq<Span>, c: Cur, n: nat)
    requires c.At? ==> c.k < |spans|
    ensures Read(spans, c).0.At? ==> Read(spans, c).0.k < |spans|
    ensures Reads(spans, c, n + 1).0 == Reads(spans, Read(spans, c).0, n).0
  {
    ReadStays(spans, c);
    if n > 0 {
      ReadsFront(spans, c, n - 1);
    } else {
      assert Reads(spans, c, 0) == (c, []);
    }
  }

  lemma {:induction false} ReadsGrow(spans: seq<Span>, c: Cur, m: nat, n: nat)
    requires (c.At? ==> c.k < |spans|) && m <= n
    ensures Reads(spans, c, m).1 <= Reads(spans, c, n).1
    decreases n
  {
    if m < n {
      ReadsGrow(spans, c, m, n - 1);
    }
  }

  /** Some number of reads leaves the reader without a position. */
  ghost predicate ComesToNil(spans: seq<Span>, c: Cur)
    requires c.At? ==> c.k < |spans|
  {
    exists n: nat :: Reads(spans, c, n).0 == Nil
  }

  lemma ReadThenNil(spans: seq<Span>, c: Cur)
    requires c.At? ==> c.k < |spans|
    requires Read(spans, c).0.At? ==> Read(spans, c).0.k < |spans|
    requires ComesToNil(spans, Read(spans, c).0)
    ensures ComesToNil(spans, c)
  {
    var n: nat :| Reads(spans, Read(spans, c).0, n).0 == Nil;
    ReadsFront(spans, c, n);
    assert Reads(spans, c, n + 1).0 == Nil;
  }

  lemma NilIsNil(spans: seq<Span>)
    ensures ComesToNil(spans, Nil)
  {
    assert Reads(spans, Nil, 0).0 == Nil;
  }

  /** A reader in front of a chunk that is gone reads up to it and loses its position. */
  lemma {:induction false} ReadsIntoGone(spans: seq<Span>, k: nat, i: nat, e: nat)
    requires k < e < |spans| && spans[e].Pooled() && forall j :: k <= j < e ==> !spans[j].Pooled()
    ensures ComesToNil(spans, At(k, i))
    decreases e - k, spans[k].size - i
  {
    var c := spans[k];
    if Max(i, c.head) < c.size {
      ReadsIntoGone(spans, k, Max(i, c.head) + 1, e);
    } else if k + 1 == e {
      assert ReadFrom(spans, k + 1, 0) == (Nil, None);
      NilIsNil(spans);
    } else {
      assert ReadFrom(spans, k + 1, 0).0 == At(k + 1, spans[k + 1].head + 1);
      ReadsIntoGone(spans, k + 1, spans[k + 1].head + 1, e);
    }
    ReadThenNil(spans, At(k, i));
  }

  /** The first chunk that is gone behind the front. */
  lemma {:induction false} FirstGone(spans: seq<Span>, f: nat, k: nat) returns (e: nat)
    requires f < k < |spans| && !spans[f].Pooled() && spans[k].Pooled()
    ensures f < e <= k && spans[e].Pooled() && forall j :: f <= j < e ==> !spans[j].Pooled()
    decreases k
  {
    if j :| f < j < k && spans[j].Pooled() {
      e := FirstGone(spans, f, j);
    } else {
      e := k;
    }
  }

  lemma {:induction false} ReadsNext(spans: seq<Span>, n: nat)
    ensures
      var (c, got) := Reads(spans, Nil, n);
      var (c', g) := Read(spans, c);
      Reads(spans, Nil, n + 1) == (c', if g.Some? then got + [g.value] else got)
  {
  }

  /** The first read without a position delivers the oldest live slot. */
  lemma {:induction false} FirstRead(spans: seq<Span>, f: nat)
    requires f == First(spans, 0) < |spans|
    ensures Read(spans, Nil) == (At(f, spans[f].head + 1), Some((f, spans[f].head)))
    ensures Reads(spans, Nil, 1).1 == [(f, spans[f].head)]
  {
    assert Reads(spans, Nil, 0) == (Nil, []);
    ReadsNext(spans, 0);
  }

  lemma {:induction false} NilAgain(spans: seq<Span>, f: nat) returns (n: nat)
    requires EmptiedBehindKept(spans) && f == First(spans, 0) < |spans|
    ensures n > 0 && Reads(spans, Nil, n).0 == Nil
  {
    var j, k :| 0 <= j < k < |spans| && !spans[j].Pooled() && spans[k].Pooled();
    var e := FirstGone(spans, f, k);
    FirstRead(spans, f);
    ReadsIntoGone(spans, f, spans[f].head + 1, e);
    var m: nat :| Reads(spans, At(f, spans[f].head + 1), m).0 == Nil;
    ReadsFront(spans, Nil, m);
    n := m + 1;
  }

  lemma TwiceIsNotIncreasing(ps: seq<(nat, nat)>, x: (nat, nat))
    requires ps != [] && ps[0] == x
    ensures !Increasing(ps + [x])
  {
    assert (ps + [x])[0] == (ps + [x])[|ps|];
  }

  lemma {:induction false} ReadsRepeat(spans: seq<Span>)
    requires EmptiedBehindKept(spans)
    ensures exists n: nat :: !Increasing(Reads(spans, Nil, n).1)
  {
    var f := First(spans, 0);
    var x := (f, spans[f].head);
    var n := NilAgain(spans, f);
    FirstRead(spans, f);
    ReadsGrow(spans, Nil, 1, n);
    ReadsNext(spans, n);
    var got := Reads(spans, Nil, n).1;
    assert Reads(spans, Nil, n + 1).1 == got + [x];
    TwiceIsNotIncreasing(got, x);
  }

  /** Reads from every place deliver each slot at most once and in order, if and only if the pass
      has emptied no chunk behind a kept one. */
  lemma ReadsInOrderIff(spans: seq<Span>)
    ensures (forall c, n: nat :: Placed(spans, c) ==> Increasing(Reads(spans, c, n).1))
       <==> !EmptiedBehindKept(spans)
  {
    if EmptiedBehindKept(spans) {
      ReadsRepeat(spans);
      var n: nat :| !Increasing(Reads(spans, Nil, n).1);
      assert Placed(spans, Nil);
    } else {
      forall c, n: nat | Placed(spans, c)
        ensures Increasing(Reads(spans, c, n).1)
      {
        ReadsGoOn(spans, c, n);
      }
    }
  }

  // ---------- the pass and a run ----------

  /** A pass with a single reading empties no chunk behind a kept one. */
  lemma OneReadingIsHarmless(heads: seq<nat>, chunks: Chunks, clock: Clock, ttl: int)
    requires |heads| == |chunks| && NonEmpty(chunks) && forall i, j :: clock(i) == clock(j)
    ensures !EmptiedBehindKept(Outcome(heads, chunks, Removed(chunks, clock, 0, ttl)))
  {
    var counts := Removed(chunks, clock, 0, ttl);
    OneReadingNeverOvertakes(chunks, clock, 0, ttl);
    PrefixIff(chunks, clock, ttl);
    assert IsPrefix(chunks, counts);
  }

  /** The front chunk keeps the item in its last slot, which expires just after its test, and the
      one behind it is emptied. A reader that has read both is sent back, and one that starts
      afresh is given the same item again and again. */
  lemma SentBack(x: Item, y: Item)
    requires x.created == y.created == 0
    ensures
      var clock := (n: nat) => if n == 0 then 10 else 11;
      var spans := Outcome([999, 0], [[x], [y]], Removed([[x], [y]], clock, 0, 10));
      && spans == [Span(999, 1000), Span(1, 1)]
      && Repaired(spans, 1, 1, true) == At(0, 0)
      && Read(spans, At(0, 0)) == (At(0, 1000), Some((0, 999)))
      && Reads(spans, Nil, 3).1 == [(0, 999), (0, 999)]
  {
    LossUncounted(x, y);
    var clock := (n: nat) => if n == 0 then 10 else 11;
    var counts := Removed([[x], [y]], clock, 0, 10);
    var spans := Outcome([999, 0], [[x], [y]], counts);
    assert spans == [Span(999, 1000), Span(1, 1)];
    assert First(spans, 0) == 0;
    assert Reads(spans, Nil, 0) == (Nil, []);
    assert ReadFrom(spans, 0, 0) == (At(0, 1000), Some((0, 999)));
    assert Read(spans, Nil) == (At(0, 1000), Some((0, 999)));
    ReadsNext(spans, 0);
    assert ReadFrom(spans, 1, 0) == (Nil, None);
    assert ReadFrom(spans, 0, 1000) == (Nil, None);
    ReadsNext(spans, 1);
    ReadsNext(spans, 2);
  }
}
