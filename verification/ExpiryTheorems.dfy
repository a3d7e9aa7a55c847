/** What one expiry pass removes. */
module ExpiryTheorems {
  import opened QueueTypes
  import opened LogView

  /** A pass removes exactly the longest expired prefix of what is stored. */
  lemma {:induction false} LongestExpiredPrefix(log: seq<Item>, p: nat, now: int, ttl: int)
    requires p <= |log|
    ensures var q := Surviving(log, p, now, ttl);
      && (forall i :: p <= i < q ==> Expired(log[i], now, ttl))
      && (q < |log| ==> !Expired(log[q], now, ttl))
    decreases |log| - p
  {
    if p < |log| && Expired(log[p], now, ttl) {
      LongestExpiredPrefix(log, p + 1, now, ttl);
    }
  }

  ghost predicate Nondecreasing(log: seq<Item>, p: nat) {
    forall i, j :: p <= i < j < |log| ==> log[i].created <= log[j].created
  }

  /** The pass at time `now` with time-to-live `ttl` leaves no expired item behind. */
  ghost predicate LeavesNone(log: seq<Item>, p: nat, now: int, ttl: int)
    requires p <= |log|
  {
    forall i :: Surviving(log, p, now, ttl) <= i < |log| ==> !Expired(log[i], now, ttl)
  }

  /**
   Stopping at the first survivor is exact, whatever the clock and the time-to-live, if and
   only if the stored items are in order of creation.
   */
  lemma EarlyStopIsExactIff(log: seq<Item>, p: nat)
    requires p <= |log|
    ensures (forall now, ttl :: LeavesNone(log, p, now, ttl)) <==> Nondecreasing(log, p)
  {
    forall now, ttl
      ensures Nondecreasing(log, p) ==> LeavesNone(log, p, now, ttl)
    {
      LongestExpiredPrefix(log, p, now, ttl);
    }
    if !Nondecreasing(log, p) {
      var i, j :| p <= i < j < |log| && log[i].created > log[j].created;
      LongestExpiredPrefix(log, p, log[i].created, 0);
      assert !Expired(log[i], log[i].created, 0) && Expired(log[j], log[i].created, 0);
      assert !LeavesNone(log, p, log[i].created, 0);
    }
  }
}
