/**
 The expiry pass as the code runs it, with a clock reading of its own for every item that it
 tests and one more for each chunk that it keeps. In the queue model a pass has a single
 reading. Here is what several readings change in what a pass removes and in what a reader is
 told of it; what they do to cursors and later reads is in `ClockRepair`.
 */
module ClockReadings {
  import opened QueueTypes

  /** Successive readings of the clock. */
  type Clock = nat -> int

  /** The live items of each listed chunk, front first. */
  type Chunks = seq<seq<Item>>

  // ---------- one chunk ----------

  /** How many items go from the front of a chunk, each tested at its own reading. */
  function Scanned(items: seq<Item>, clock: Clock, at: nat, ttl: int): (n: nat)
    ensures n <= |items|
  {
    if items != [] && Expired(items[0], clock(at), ttl) then 1 + Scanned(items[1..], clock, at + 1, ttl) else 0
  }

  /** Readings used by that scan: one for every item removed and one for the survivor. */
  function AfterScan(items: seq<Item>, clock: Clock, at: nat, ttl: int): nat {
    var n := Scanned(items, clock, at, ttl);
    at + n + if n < |items| then 1 else 0
  }

  /** The chunk is kept, but when the pass tests the survivor again it has expired, so that the
      pass goes on to the next chunk. */
  predicate Late(items: seq<Item>, clock: Clock, at: nat, ttl: int) {
    var n := Scanned(items, clock, at, ttl);
    n < |items| && Expired(items[n], clock(AfterScan(items, clock, at, ttl)), ttl)
  }

  /** The reading at which the pass turns to the next chunk. */
  function NextReading(items: seq<Item>, clock: Clock, at: nat, ttl: int): nat {
    var n := Scanned(items, clock, at, ttl);
    AfterScan(items, clock, at, ttl) + if n < |items| then 1 else 0
  }

  predicate GoesOn(items: seq<Item>, clock: Clock, at: nat, ttl: int) {
    Scanned(items, clock, at, ttl) == |items| || Late(items, clock, at, ttl)
  }

  /** A scan removes the items that had expired each at its own reading, up to the first that
      had not. */
  lemma {:induction false} ScanLaw(items: seq<Item>, clock: Clock, at: nat, ttl: int)
    ensures
      var n := Scanned(items, clock, at, ttl);
      && (forall i :: 0 <= i < n ==> clock(at + i) - items[i].created > ttl)
      && (n < |items| ==> clock(at + n) - items[n].created <= ttl)
  {
    if items != [] && Expired(items[0], clock(at), ttl) {
      var n := Scanned(items[1..], clock, at + 1, ttl);
      ScanLaw(items[1..], clock, at + 1, ttl);
      forall i | 0 <= i < 1 + n
        ensures clock(at + i) - items[i].created > ttl
      {
        if i > 0 {
          assert items[i] == items[1..][i - 1] && clock(at + 1 + (i - 1)) - items[1..][i - 1].created > ttl;
        }
      }
    }
  }

  // ---------- the pass ----------

  /** How many items each chunk loses, for the chunks that the pass gets to. */
  function Removed(chunks: Chunks, clock: Clock, at: nat, ttl: int): (counts: seq<nat>)
    ensures |counts| <= |chunks|
  {
    if chunks == [] then []
    else
      [Scanned(chunks[0], clock, at, ttl)]
      + if GoesOn(chunks[0], clock, at, ttl)
        then Removed(chunks[1..], clock, NextReading(chunks[0], clock, at, ttl), ttl) else []
  }

  /** The loop over the slots of one chunk. */
  method ScanChunk(items: seq<Item>, clock: Clock, at: nat, ttl: int) returns (n: nat)
    ensures n == Scanned(items, clock, at, ttl)
  {
    n := 0;
    while n < |items| && Expired(items[n], clock(at + n), ttl)
      invariant n <= |items|
      invariant n + Scanned(items[n..], clock, at + n, ttl) == Scanned(items, clock, at, ttl)
    {
      n := n + 1;
    }
  }

  /** One turn of the loop over the chunks. */
  method Turn(items: seq<Item>, clock: Clock, at: nat, ttl: int) returns (n: nat, next: nat, on: bool)
    ensures n == Scanned(items, clock, at, ttl) && on == GoesOn(items, clock, at, ttl)
    ensures next == NextReading(items, clock, at, ttl)
  {
    n := ScanChunk(items, clock, at, ttl);
    next, on := at + n, true;
    if n < |items| {
      next := next + 1;
      on := Expired(items[n], clock(next), ttl);
      next := next + 1;
    }
  }

  /** What is left to do once `counts` are known and the pass stands before `chunks`. */
  ghost function Remaining(chunks: Chunks, clock: Clock, at: nat, ttl: int, on: bool): seq<nat> {
    if on then Removed(chunks, clock, at, ttl) else []
  }

  lemma RemovedTurn(counts: seq<nat>, chunks: Chunks, j: nat, clock: Clock, at: nat, ttl: int)
    requires j < |chunks|
    ensures
      var (items, next) := (chunks[j], NextReading(chunks[j], clock, at, ttl));
      counts + Remaining(chunks[j..], clock, at, ttl, true)
      == counts + [Scanned(items, clock, at, ttl)]
         + Remaining(chunks[j + 1..], clock, next, ttl, GoesOn(items, clock, at, ttl))
  {
    assert chunks[j..][1..] == chunks[j + 1..];
  }

  /** The pass over all chunks. */
  method RemoveExpired(chunks: Chunks, clock: Clock, ttl: int) returns (counts: seq<nat>)
    ensures counts == Removed(chunks, clock, 0, ttl)
  {
    counts := [];
    var at, j, on := 0, 0, true;
    ghost var all := Removed(chunks, clock, 0, ttl);
    assert chunks[0..] == chunks;
    while on && j < |chunks|
      invariant j <= |chunks| && counts + Remaining(chunks[j..], clock, at, ttl, on) == all
    {
      RemovedTurn(counts, chunks, j, clock, at, ttl);
      var n;
      n, at, on := Turn(chunks[j], clock, at, ttl);
      counts, j := counts + [n], j + 1;
    }
  }

  /** The reading at which the pass comes to chunk `j`. */
  function ReadingAt(chunks: Chunks, clock: Clock, at: nat, ttl: int, j: nat): nat
    requires j < |chunks|
    decreases j
  {
    if j == 0 then at
    else
      var r := ReadingAt(chunks, clock, at, ttl, j - 1);
      var n := Scanned(chunks[j - 1], clock, r, ttl);
      if n == |chunks[j - 1]| then r + n else r + n + 2
  }

  lemma {:induction false} ReadingShift(chunks: Chunks, clock: Clock, at: nat, ttl: int, j: nat)
    requires 0 < j < |chunks|
    ensures ReadingAt(chunks, clock, at, ttl, j)
         == ReadingAt(chunks[1..], clock, NextReading(chunks[0], clock, at, ttl), ttl, j - 1)
    decreases j
  {
    if j > 1 {
      ReadingShift(chunks, clock, at, ttl, j - 1);
      assert chunks[1..][j - 2] == chunks[j - 1];
    }
  }

  /** The pass goes on from chunk to chunk as long as each is emptied, or its survivor has expired
      when it is tested once more. */
  lemma {:induction false} PassLaw(chunks: Chunks, clock: Clock, at: nat, ttl: int, j: nat)
    requires j < |chunks|
    ensures
      var counts, r := Removed(chunks, clock, at, ttl), ReadingAt(chunks, clock, at, ttl, j);
      && (j < |counts| ==> counts[j] == Scanned(chunks[j], clock, r, ttl))
      && (j < |counts| && j + 1 < |chunks| ==>
            (j + 1 < |counts| <==>
               counts[j] == |chunks[j]| || clock(r + counts[j] + 1) - chunks[j][counts[j]].created > ttl))
    decreases |chunks|
  {
    var next := NextReading(chunks[0], clock, at, ttl);
    if j > 0 && GoesOn(chunks[0], clock, at, ttl) {
      PassLaw(chunks[1..], clock, next, ttl, j - 1);
      ReadingShift(chunks, clock, at, ttl, j);
    }
  }

  // ---------- when the removal is a prefix ----------

  /** Behind a chunk that keeps an item nothing is removed. */
  ghost predicate IsPrefix(chunks: Chunks, counts: seq<nat>)
    requires |counts| <= |chunks|
  {
    forall i, j :: 0 <= i < j < |counts| && counts[i] < |chunks[i]| ==> counts[j] == 0
  }

  /** The pass goes on from a kept chunk and finds the next one's first item expired. */
  ghost predicate Overtakes(chunks: Chunks, clock: Clock, at: nat, ttl: int)
    decreases |chunks|
  {
    && chunks != [] && GoesOn(chunks[0], clock, at, ttl)
    && var next := NextReading(chunks[0], clock, at, ttl);
    || (|chunks| > 1 && Late(chunks[0], clock, at, ttl)
        && chunks[1] != [] && Expired(chunks[1][0], clock(next), ttl))
    || Overtakes(chunks[1..], clock, next, ttl)
  }

  ghost predicate NonEmpty(chunks: Chunks) { forall j :: 0 <= j < |chunks| ==> chunks[j] != [] }

  ghost predicate AllZero(counts: seq<nat>) { forall j :: 0 <= j < |counts| ==> counts[j] == 0 }

  /** After a late chunk nothing is removed, unless the pass overtakes somewhere. */
  lemma {:induction false} KeepsAll(chunks: Chunks, clock: Clock, at: nat, ttl: int)
    requires NonEmpty(chunks) && !Overtakes(chunks, clock, at, ttl)
    requires chunks != [] ==> !Expired(chunks[0][0], clock(at), ttl)
    ensures AllZero(Removed(chunks, clock, at, ttl))
    decreases |chunks|
  {
    if chunks != [] && GoesOn(chunks[0], clock, at, ttl) {
      KeepsAll(chunks[1..], clock, NextReading(chunks[0], clock, at, ttl), ttl);
    }
  }

  lemma {:induction false} NoOvertakingIsPrefix(chunks: Chunks, clock: Clock, at: nat, ttl: int)
    requires NonEmpty(chunks) && !Overtakes(chunks, clock, at, ttl)
    ensures IsPrefix(chunks, Removed(chunks, clock, at, ttl))
    decreases |chunks|
  {
    if chunks != [] && GoesOn(chunks[0], clock, at, ttl) {
      var next := NextReading(chunks[0], clock, at, ttl);
      NoOvertakingIsPrefix(chunks[1..], clock, next, ttl);
      if Late(chunks[0], clock, at, ttl) {
        KeepsAll(chunks[1..], clock, next, ttl);
      }
    }
  }

  lemma NoPrefixBehind(chunks: Chunks, counts: seq<nat>)
    requires counts != [] && |counts| <= |chunks| && !IsPrefix(chunks[1..], counts[1..])
    ensures !IsPrefix(chunks, counts)
  {
    var rest := counts[1..];
    var i, j :| 0 <= i < j < |rest| && rest[i] < |chunks[1..][i]| && rest[j] != 0;
    assert counts[i + 1] < |chunks[i + 1]| && counts[j + 1] != 0;
  }

  lemma {:induction false} OvertakingIsNoPrefix(chunks: Chunks, clock: Clock, at: nat, ttl: int)
    requires NonEmpty(chunks) && Overtakes(chunks, clock, at, ttl)
    ensures !IsPrefix(chunks, Removed(chunks, clock, at, ttl))
    decreases |chunks|
  {
    var next := NextReading(chunks[0], clock, at, ttl);
    var counts, rest := Removed(chunks, clock, at, ttl), Removed(chunks[1..], clock, next, ttl);
    assert counts == [Scanned(chunks[0], clock, at, ttl)] + rest && counts[1..] == rest;
    if Overtakes(chunks[1..], clock, next, ttl) {
      OvertakingIsNoPrefix(chunks[1..], clock, next, ttl);
      NoPrefixBehind(chunks, counts);
    } else {
      assert counts[0] < |chunks[0]| && counts[1] != 0;
    }
  }

  /**
   What a pass removes is a prefix of the stored items exactly when it never goes on from a
   kept chunk, whose survivor has expired in the meantime, to one whose first item has expired.
   */
  lemma PrefixIff(chunks: Chunks, clock: Clock, ttl: int)
    requires NonEmpty(chunks)
    ensures IsPrefix(chunks, Removed(chunks, clock, 0, ttl)) <==> !Overtakes(chunks, clock, 0, ttl)
  {
    if Overtakes(chunks, clock, 0, ttl) {
      OvertakingIsNoPrefix(chunks, clock, 0, ttl);
    } else {
      NoOvertakingIsPrefix(chunks, clock, 0, ttl);
    }
  }

  lemma {:induction false} OneReadingNeverOvertakes(chunks: Chunks, clock: Clock, at: nat, ttl: int)
    requires forall i, j :: clock(i) == clock(j)
    ensures !Overtakes(chunks, clock, at, ttl)
    decreases |chunks|
  {
    if chunks != [] && GoesOn(chunks[0], clock, at, ttl) {
      ScanLaw(chunks[0], clock, at, ttl);
      OneReadingNeverOvertakes(chunks[1..], clock, NextReading(chunks[0], clock, at, ttl), ttl);
    }
  }

  // ---------- what a reader is told ----------

  /** A removal record, for a chunk that lost something. */
  datatype Record = Record(chunk: nat, removed: nat, oldHead: nat, newHead: nat)

  function Records(heads: seq<nat>, counts: seq<nat>, j: nat): seq<Record>
    requires |counts| <= |heads| && j <= |counts|
    decreases |counts| - j
  {
    if j == |counts| then []
    else if counts[j] == 0 then Records(heads, counts, j + 1)
    else [Record(j, counts[j], heads[j], heads[j] + counts[j])] + Records(heads, counts, j + 1)
  }

  function InChunk(r: Record, i: nat): int {
    if i >= r.newHead then 0 else if i <= r.oldHead then r.removed else r.newHead - i
  }

  /** The running count of calculateExpiredCount for a cursor at slot `i` of chunk `k`. */
  function Counted(records: seq<Record>, k: nat, i: nat, found: bool): int {
    if records == [] then 0
    else
      var r := records[0];
      if found then r.removed + Counted(records[1..], k, i, true)
      else if r.chunk == k then InChunk(r, i) + Counted(records[1..], k, i, true)
      else Counted(records[1..], k, i, false)
  }

  function Sum(counts: seq<nat>, j: nat): nat
    requires j <= |counts|
    decreases |counts| - j
  {
    if j == |counts| then 0 else counts[j] + Sum(counts, j + 1)
  }

  /** The items at or after slot `i` of chunk `k` that the pass removed. */
  function Lost(heads: seq<nat>, counts: seq<nat>, k: nat, i: nat): int
    requires |counts| <= |heads| && k < |heads|
  {
    if k >= |counts| then 0
    else Max(heads[k] + counts[k] - Max(i, heads[k]), 0) + Sum(counts, k + 1)
  }

  lemma {:induction false} CountedBehind(heads: seq<nat>, counts: seq<nat>, j: nat, k: nat, i: nat)
    requires |counts| <= |heads| && j <= |counts|
    ensures Counted(Records(heads, counts, j), k, i, true) == Sum(counts, j)
    ensures j > k ==> Counted(Records(heads, counts, j), k, i, false) == 0
    decreases |counts| - j
  {
    if j < |counts| {
      CountedBehind(heads, counts, j + 1, k, i);
    }
  }

  lemma {:induction false} CountedFrom(heads: seq<nat>, counts: seq<nat>, j: nat, k: nat, i: nat)
    requires |counts| <= |heads| && j <= k < |counts|
    ensures Counted(Records(heads, counts, j), k, i, false)
         == if counts[k] > 0 then Lost(heads, counts, k, i) else 0
    decreases |counts| - j
  {
    if j < k {
      CountedFrom(heads, counts, j + 1, k, i);
    } else {
      CountedBehind(heads, counts, k + 1, k, i);
    }
  }

  lemma {:induction false} CountedBelow(heads: seq<nat>, counts: seq<nat>, j: nat, k: nat, i: nat)
    requires |counts| <= |heads| && j <= |counts| <= k
    ensures Counted(Records(heads, counts, j), k, i, false) == 0
    decreases |counts| - j
  {
    if j < |counts| {
      CountedBelow(heads, counts, j + 1, k, i);
    }
  }

  /**
   The count that a cursor gets from the records is the number of items that it lost exactly
   when its own chunk lost something or no chunk behind it did.
   */
  lemma CountIsExactIff(heads: seq<nat>, counts: seq<nat>, k: nat, i: nat)
    requires |counts| <= |heads| && k < |heads|
    ensures Counted(Records(heads, counts, 0), k, i, false) == Lost(heads, counts, k, i)
       <==> (k < |counts| ==> counts[k] > 0 || Sum(counts, k + 1) == 0)
  {
    if k < |counts| {
      CountedFrom(heads, counts, 0, k, i);
    } else {
      CountedBelow(heads, counts, 0, k, i);
    }
  }

  /** Two chunks with one live item each: the first item, in the last slot of its chunk, expires
      just after its test, the second goes, and a reader in front of both is told of no loss. */
  lemma LossUncounted(x: Item, y: Item)
    requires x.created == y.created == 0
    ensures
      var clock := (n: nat) => if n == 0 then 10 else 11;
      var counts := Removed([[x], [y]], clock, 0, 10);
      && counts == [0, 1] && !IsPrefix([[x], [y]], counts)
      && Counted(Records([999, 0], counts, 0), 0, 999, false) == 0 && Lost([999, 0], counts, 0, 999) == 1
  {
    var clock := (n: nat) => if n == 0 then 10 else 11;
    var chunks := [[x], [y]];
    assert chunks[1..] == [[y]] && [[y]][1..] == [];
    assert Scanned([x], clock, 0, 10) == 0 && Late([x], clock, 0, 10);
    assert [y][1..] == [] && Scanned([y], clock, 2, 10) == 1;
    assert Removed([[y]], clock, 2, 10) == [1];
    var counts := Removed(chunks, clock, 0, 10);
    assert counts == [0, 1];
    assert counts[0] < |chunks[0]| && counts[1] != 0;
    assert Sum(counts, 1) == 1;
    CountIsExactIff([999, 0], counts, 0, 999);
    CountedFrom([999, 0], counts, 0, 0, 999);
  }
}
