/** The simple picture of a reader: an offset into the log and what became of each item. */
module Readers {
  import opened QueueTypes
  import opened LogView

  function Range(p: nat, n: nat): (r: seq<nat>)
    ensures |r| == n && forall i :: 0 <= i < n ==> r[i] == p + i
  {
    seq(n, i requires 0 <= i => p + i)
  }

  /**
   `from` is the mark at registration, `delivered` the log positions handed out,
   `lost` the items reported as expired unread and `dropped` those that Close threw away.
   */
  datatype Reader = Reader(offset: nat, closed: bool, from: nat, delivered: seq<nat>, lost: nat, dropped: nat) {

    /** The position of the next item to read. */
    function Next(v: View): nat { Max(offset, v.mark) }

    function Unread(v: View): int { |v.log| - Next(v) }

    /** Hand out the next `n` items. */
    function Consume(v: View, n: nat): Reader {
      if n == 0 then this
      else this.(offset := Next(v) + n, delivered := delivered + Range(Next(v), n))
    }

    /** Report the unread items that a pass raising the mark to `q` takes away. */
    function Expire(v: View, q: nat): Reader {
      this.(lost := lost + Max(q - Next(v), 0))
    }

    function Drop(v: View): Reader {
      this.(dropped := dropped + Max(Unread(v), 0))
    }
  }

  function NewReader(v: View): Reader { Reader(v.mark, false, v.mark, [], 0, 0) }

  /** The first position at or after `p` whose item satisfies the predicate. */
  function FirstMatch(log: seq<Item>, p: nat, want: Item -> bool): (q: nat)
    requires p <= |log|
    ensures p <= q <= |log|
    decreases |log| - p
  {
    if p < |log| && !want(log[p]) then FirstMatch(log, p + 1, want) else p
  }

  /** Up to `n` single reads in a row, after those that gave `taken`. */
  function Take(r: Reader, v: View, n: nat, taken: seq<Item>): (seq<Item>, Reader)
    decreases n
  {
    if n == 0 || r.Unread(v) <= 0 then (taken, r)
    else Take(r.Consume(v, 1), v, n - 1, taken + [v.log[r.Next(v)]])
  }

  /** Single reads until one yields an item that is wanted. */
  function Seek(r: Reader, v: View, want: Item -> bool): (Option<Item>, Reader)
    decreases r.Unread(v)
  {
    if r.Unread(v) <= 0 then (None, r)
    else if want(v.log[r.Next(v)]) then (Some(v.log[r.Next(v)]), r.Consume(v, 1))
    else Seek(r.Consume(v, 1), v, want)
  }

  lemma ConsumeMore(r: Reader, v: View, n: nat)
    ensures r.Consume(v, 1).Consume(v, n) == r.Consume(v, n + 1)
  {
    var p := r.Next(v);
    assert r.delivered + Range(p, n + 1) == r.delivered + Range(p, 1) + Range(p + 1, n);
  }

  /** A batch is the first min(n, unread) items in log order. */
  lemma {:induction false} TakeIsPrefix(r: Reader, v: View, n: nat, taken: seq<Item>)
    requires r.Next(v) <= |v.log|
    ensures var p, m := r.Next(v), Min(n, r.Unread(v));
      Take(r, v, n, taken) == (taken + v.log[p..p + m], r.Consume(v, m))
    decreases n
  {
    var p, m := r.Next(v), Min(n, r.Unread(v));
    if m > 0 {
      TakeIsPrefix(r.Consume(v, 1), v, n - 1, taken + [v.log[p]]);
      ConsumeMore(r, v, m - 1);
      assert v.log[p..p + m] == [v.log[p]] + v.log[p + 1..p + m];
      assert taken + v.log[p..p + m] == taken + [v.log[p]] + v.log[p + 1..p + m];
    } else {
      assert taken + v.log[p..p] == taken;
    }
  }

  /** A filtered read yields the first match and consumes exactly the items through it. */
  lemma {:induction false} SeekIsFirstMatch(r: Reader, v: View, want: Item -> bool)
    requires r.Next(v) <= |v.log|
    ensures var p := r.Next(v);
      var q := FirstMatch(v.log, p, want);
      && Seek(r, v, want).0 == (if q < |v.log| then Some(v.log[q]) else None)
      && Seek(r, v, want).1 == r.Consume(v, Min(q + 1, |v.log|) - p)
    decreases r.Unread(v)
  {
    if r.Unread(v) > 0 && !want(v.log[r.Next(v)]) {
      var q := FirstMatch(v.log, r.Next(v), want);
      SeekIsFirstMatch(r.Consume(v, 1), v, want);
      ConsumeMore(r, v, Min(q + 1, |v.log|) - r.Next(v) - 1);
    }
  }
}
