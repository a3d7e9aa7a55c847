/**
 What the size estimator computes, said without its walk: every value has bytes of its own, and
 an estimate is their sum over the values that a visit of the graph enters, each address once.
 */
module SizeLaws {
  import opened QueueTypes
  import opened SizeEstimator

  // ---------- own bytes and children ----------

  /** A slice whose elements are of a kind from Bool to Float64. */
  predicate BasicSlice(w: World, t: TypeId) {
    w.types(t).kind.Slice? && w.types(w.types(t).kind.elem).kind == Plain(true)
  }

  /** The bytes of a value itself: the length of a text, the header of a pointer, slice or
      interface, the whole data of a basic slice, and a prohibitive size for any map. */
  function Own(w: World, v: Value): int {
    match v
    case PlainValue(t) => w.types(t).bytes
    case TextValue(_, length) => length
    case CompositeValue(_, _) => 0
    case SliceValue(t, data, n) =>
      w.types(t).bytes + if BasicSlice(w, t) then n * w.types(w.types(t).kind.elem).bytes else 0
    case MapValue(_, _) => 0x100_0000_0000
    case PointerValue(t, _) => w.types(t).bytes
    case InterfaceValue(t, _) => w.types(t).bytes
  }

  /** The values that a value leads to. */
  function Children(w: World, h: Heap, v: Value): seq<Value> {
    match v
    case CompositeValue(_, parts) => parts
    case SliceValue(t, data, n) =>
      if data.None? || n == 0 || BasicSlice(w, t) then [] else Elements(h, data.value, ElemType(w, t), n)
    case PointerValue(t, data) => if data.None? then [] else [h.cell(data.value, ElemType(w, t))]
    case InterfaceValue(_, dynamic) => if dynamic.None? then [] else [dynamic.value]
    case _ => []
  }

  function SumOwn(w: World, vs: seq<Value>): int {
    if vs == [] then 0 else SumOwn(w, vs[..|vs| - 1]) + Own(w, vs[|vs| - 1])
  }

  function ChildrenOf(w: World, h: Heap, vs: seq<Value>): multiset<Value> {
    if vs == [] then multiset{}
    else ChildrenOf(w, h, vs[..|vs| - 1]) + multiset(Children(w, h, vs[|vs| - 1]))
  }

  function Targets(vs: seq<Value>): set<Addr> {
    set i | 0 <= i < |vs| && Target(vs[i]).Some? :: Target(vs[i]).value
  }

  // ---------- a visit ----------

  /** No two values entered refer to the same address, nor to one in `seen`. */
  ghost predicate EntersOnce(entered: seq<Value>, seen: set<Addr>) {
    && (forall i :: 0 <= i < |entered| && Target(entered[i]).Some? ==> Target(entered[i]).value !in seen)
    && (forall i, j :: 0 <= i < j < |entered| && Target(entered[i]).Some? && Target(entered[j]).Some? ==>
          Target(entered[i]).value != Target(entered[j]).value)
  }

  ghost predicate GroundedAt(w: World, h: Heap, roots: seq<Value>, entered: seq<Value>, i: nat)
    requires i < |entered|
  {
    entered[i] in roots || exists j :: 0 <= j < i && entered[i] in Children(w, h, entered[j])
  }

  /** Every value entered is a root or a child of one entered before. */
  ghost predicate Grounded(w: World, h: Heap, roots: seq<Value>, entered: seq<Value>) {
    forall i :: 0 <= i < |entered| ==> GroundedAt(w, h, roots, entered, i)
  }

  /** What is left out refers to an address that has been seen. */
  ghost predicate SeenBefore(skipped: multiset<Value>, seen: set<Addr>) {
    forall x :: x in skipped ==> Target(x).Some? && Target(x).value in seen
  }

  /** What a visit enters, in order, what it skips, and the addresses seen in the end. */
  datatype Tour = Tour(entered: seq<Value>, skipped: multiset<Value>, seen: set<Addr>)

  /**
   A visit from `roots`: every root and every child of a value entered is itself entered, once
   for each time it occurs, or skipped because its address has been seen.
   */
  ghost predicate Visit(w: World, h: Heap, roots: seq<Value>, seen: set<Addr>, tour: Tour) {
    match tour
    case Tour(entered, skipped, seen') =>
      && multiset(roots) + ChildrenOf(w, h, entered) == multiset(entered) + skipped
      && EntersOnce(entered, seen) && seen' == seen + Targets(entered)
      && SeenBefore(skipped, seen') && Grounded(w, h, roots, entered)
  }

  // ---------- visits compose ----------

  lemma {:induction false} SumOwnConcat(w: World, a: seq<Value>, b: seq<Value>)
    ensures SumOwn(w, a + b) == SumOwn(w, a) + SumOwn(w, b)
    decreases |b|
  {
    if b == [] {
      assert a + b == a;
    } else {
      var n := |b| - 1;
      SumOwnConcat(w, a, b[..n]);
      assert (a + b)[..|a + b| - 1] == a + b[..n];
    }
  }

  lemma {:induction false} ChildrenOfConcat(w: World, h: Heap, a: seq<Value>, b: seq<Value>)
    ensures ChildrenOf(w, h, a + b) == ChildrenOf(w, h, a) + ChildrenOf(w, h, b)
    decreases |b|
  {
    if b == [] {
      assert a + b == a;
    } else {
      var n := |b| - 1;
      ChildrenOfConcat(w, h, a, b[..n]);
      assert (a + b)[..|a + b| - 1] == a + b[..n];
    }
  }

  lemma TargetsConcat(a: seq<Value>, b: seq<Value>)
    ensures Targets(a + b) == Targets(a) + Targets(b)
  {
    forall x | x in Targets(a) + Targets(b)
      ensures x in Targets(a + b)
    {
      if x in Targets(a) {
        var i :| 0 <= i < |a| && Target(a[i]).Some? && Target(a[i]).value == x;
        assert (a + b)[i] == a[i];
      } else {
        var i :| 0 <= i < |b| && Target(b[i]).Some? && Target(b[i]).value == x;
        assert (a + b)[|a| + i] == b[i];
      }
    }
  }

  lemma EntersConcat(a: seq<Value>, b: seq<Value>, seen: set<Addr>)
    requires EntersOnce(a, seen) && EntersOnce(b, seen + Targets(a))
    ensures EntersOnce(a + b, seen)
  {
    forall i, j | 0 <= i < j < |a + b| && Target((a + b)[i]).Some? && Target((a + b)[j]).Some?
      ensures Target((a + b)[i]).value != Target((a + b)[j]).value
    {
      if i < |a| <= j {
        assert Target(a[i]).value in Targets(a) && Target(b[j - |a|]).value !in Targets(a);
      }
    }
  }

  lemma GroundedConcat(w: World, h: Heap, r: seq<Value>, q: seq<Value>, a: seq<Value>, b: seq<Value>)
    requires Grounded(w, h, r, a) && Grounded(w, h, q, b)
    ensures Grounded(w, h, r + q, a + b)
  {
    forall i | 0 <= i < |a + b|
      ensures GroundedAt(w, h, r + q, a + b, i)
    {
      if i < |a| {
        assert GroundedAt(w, h, r, a, i);
        if a[i] !in r {
          var j :| 0 <= j < i && a[i] in Children(w, h, a[j]);
          assert (a + b)[j] == a[j];
        }
      } else {
        assert GroundedAt(w, h, q, b, i - |a|);
        if b[i - |a|] !in q {
          var j :| 0 <= j < i - |a| && b[i - |a|] in Children(w, h, b[j]);
          assert (a + b)[|a| + j] == b[j];
        }
      }
    }
  }

  lemma AddBoth<T>(r: multiset<T>, q: multiset<T>, c: multiset<T>, d: multiset<T>,
                   a: multiset<T>, b: multiset<T>, k: multiset<T>, l: multiset<T>)
    requires r + c == a + k && q + d == b + l
    ensures (r + q) + (c + d) == (a + b) + (k + l)
  {
    forall x: T
      ensures ((r + q) + (c + d))[x] == ((a + b) + (k + l))[x]
    {
      assert (r + c)[x] == (a + k)[x] && (q + d)[x] == (b + l)[x];
    }
  }

  lemma SkippedConcat(k: multiset<Value>, l: multiset<Value>, mid: set<Addr>, seen: set<Addr>)
    requires SeenBefore(k, mid) && SeenBefore(l, seen) && mid <= seen
    ensures SeenBefore(k + l, seen)
  {
    forall x | x in k + l
      ensures Target(x).Some? && Target(x).value in seen
    {
      assert x in k || x in l;
    }
  }

  function Joined(a: Tour, b: Tour): Tour { Tour(a.entered + b.entered, a.skipped + b.skipped, b.seen) }

  /** One visit after another. */
  lemma VisitConcat(w: World, h: Heap, r: seq<Value>, q: seq<Value>, seen: set<Addr>, a: Tour, b: Tour)
    requires Visit(w, h, r, seen, a) && Visit(w, h, q, a.seen, b)
    ensures Visit(w, h, r + q, seen, Joined(a, b))
  {
    ChildrenOfConcat(w, h, a.entered, b.entered);
    TargetsConcat(a.entered, b.entered);
    EntersConcat(a.entered, b.entered, seen);
    GroundedConcat(w, h, r, q, a.entered, b.entered);
    SkippedConcat(a.skipped, b.skipped, a.seen, b.seen);
    AddBoth(multiset(r), multiset(q), ChildrenOf(w, h, a.entered), ChildrenOf(w, h, b.entered),
            multiset(a.entered), multiset(b.entered), a.skipped, b.skipped);
  }

  lemma GroundedNode(w: World, h: Heap, v: Value, sub: seq<Value>)
    requires Grounded(w, h, Children(w, h, v), sub)
    ensures Grounded(w, h, [v], [v] + sub)
  {
    var all := [v] + sub;
    forall i | 0 <= i < |all|
      ensures GroundedAt(w, h, [v], all, i)
    {
      if i > 0 {
        assert GroundedAt(w, h, Children(w, h, v), sub, i - 1);
        if sub[i - 1] in Children(w, h, v) {
          assert all[0] == v;
        } else {
          var j :| 0 <= j < i - 1 && sub[i - 1] in Children(w, h, sub[j]);
          assert all[j + 1] == sub[j];
        }
      }
    }
  }

  function Entering(v: Value, sub: Tour): Tour { Tour([v] + sub.entered, sub.skipped, sub.seen) }

  /** Entering a value and then visiting its children. */
  lemma VisitNode(w: World, h: Heap, v: Value, seen: set<Addr>, sub: Tour)
    requires Target(v).Some? ==> Target(v).value !in seen
    requires Visit(w, h, Children(w, h, v), seen + Targets([v]), sub)
    ensures Visit(w, h, [v], seen, Entering(v, sub))
    ensures SumOwn(w, Entering(v, sub).entered) == Own(w, v) + SumOwn(w, sub.entered)
  {
    ChildrenOfConcat(w, h, [v], sub.entered);
    assert [v][..0] == [];
    assert ChildrenOf(w, h, [v]) == multiset(Children(w, h, v));
    TargetsConcat([v], sub.entered);
    EntersConcat([v], sub.entered, seen);
    GroundedNode(w, h, v, sub.entered);
    assert multiset([v] + sub.entered) == multiset([v]) + multiset(sub.entered);
    SumOwnConcat(w, [v], sub.entered);
    assert SumOwn(w, [v]) == Own(w, v);
  }

  lemma VisitNothing(w: World, h: Heap, seen: set<Addr>)
    ensures Visit(w, h, [], seen, Tour([], multiset{}, seen))
  {
  }

  lemma VisitSeen(w: World, h: Heap, v: Value, seen: set<Addr>)
    requires Target(v).Some? && Target(v).value in seen
    ensures Visit(w, h, [v], seen, Tour([], multiset{v}, seen))
  {
  }

  // ---------- the walk is a visit ----------

  lemma Mul64Exact(a: int, b: int)
    requires 0 <= a * b <= MAX_INT64
    ensures Mul64(a, b) == a * b
  {
  }

  lemma OwnNonNegative(w: World, v: Value)
    ensures Own(w, v) >= 0
  {
  }

  lemma {:induction false} SumOwnNonNegative(w: World, vs: seq<Value>)
    ensures SumOwn(w, vs) >= 0
  {
    if vs != [] {
      SumOwnNonNegative(w, vs[..|vs| - 1]);
      OwnNonNegative(w, vs[|vs| - 1]);
    }
  }

  lemma SafeAddMin(x: int, y: int)
    requires x >= 0 && y >= 0
    ensures SafeAdd(Min(MAX_INT64, x), Min(MAX_INT64, y)) == Min(MAX_INT64, x + y)
  {
  }

  lemma BasicSliceSize(w: World, v: Value)
    requires HasType(w, v) && v.SliceValue? && BasicSlice(w, v.t)
    ensures FlatElements(w, v.t)
    ensures SafeAdd(w.types(v.t).bytes, Mul64(v.count, ElemBytes(w, v.t))) == Min(MAX_INT64, Own(w, v))
  {
    Mul64Exact(v.count, ElemBytes(w, v.t));
  }

  lemma SumLast(w: World, start: ByteCount, a: seq<Value>, b: seq<Value>)
    ensures
      && SumOwn(w, a) >= 0
      && SafeAdd(Min(MAX_INT64, start + SumOwn(w, a)), Min(MAX_INT64, SumOwn(w, b)))
         == Min(MAX_INT64, start + SumOwn(w, a + b))
  {
    SumOwnConcat(w, a, b);
    SumOwnNonNegative(w, a);
    SumOwnNonNegative(w, b);
    SafeAddMin(start + SumOwn(w, a), SumOwn(w, b));
  }

  /** The estimate is complete and adds up the visit, on top of `start`. */
  ghost predicate Tallies(w: World, h: Heap, roots: seq<Value>, start: int, seen: set<Addr>, e: Estimate, tour: Tour) {
    match tour
    case Tour(entered, _, seen') =>
      && Visit(w, h, roots, seen, tour) && e.visited == Some(seen')
      && e.size == Min(MAX_INT64, start + SumOwn(w, entered))
  }

  predicate Whole(e: Estimate) { !e.cut && !e.barred }

  lemma NothingTallies(w: World, h: Heap, start: ByteCount, seen: set<Addr>, e: Estimate)
    requires e.visited == Some(seen) && e.size == start
    ensures Tallies(w, h, [], start, seen, e, Tour([], multiset{}, seen))
  {
    VisitNothing(w, h, seen);
  }

  /** With a shared set of visited addresses, a whole estimate adds up a visit. */
  lemma {:induction false} WalkVisits(w: World, h: Heap, v: Value, addressable: bool, seen: set<Addr>, depth: nat)
    returns (tour: Tour)
    requires HasType(w, v) && HeapOk(w, h) && Whole(Walk(w, h, v, addressable, Some(seen), depth))
    ensures Tallies(w, h, [v], 0, seen, Walk(w, h, v, addressable, Some(seen), depth), tour)
    decreases MAX_DEPTH + 1 - depth, 1
  {
    if Target(v).Some? && Target(v).value in seen {
      VisitSeen(w, h, v, seen);
      return Tour([], multiset{v}, seen);
    }
    var seen1 := seen + Targets([v]);
    assert Target(v).Some? ==> seen + {Target(v).value} == seen1;
    assert Target(v).None? ==> seen == seen1;
    var sub := ContentsVisits(w, h, v, seen1, depth);
    VisitNode(w, h, v, seen, sub);
    return Entering(v, sub);
  }

  lemma {:induction false} SliceVisits(w: World, h: Heap, v: Value, seen: set<Addr>, depth: nat)
    returns (sub: Tour)
    requires HasType(w, v) && HeapOk(w, h) && depth <= MAX_DEPTH && v.SliceValue?
    requires Whole(Contents(w, h, v, Some(seen), depth))
    ensures Tallies(w, h, Children(w, h, v), Own(w, v), seen, Contents(w, h, v, Some(seen), depth), sub)
    decreases MAX_DEPTH + 1 - depth, 0, 0
  {
    var e := Contents(w, h, v, Some(seen), depth);
    if v.data.None? || v.count == 0 {
      NothingTallies(w, h, w.types(v.t).bytes, seen, e);
      return Tour([], multiset{}, seen);
    } else if BasicSlice(w, v.t) {
      VisitNothing(w, h, seen);
      BasicSliceSize(w, v);
      return Tour([], multiset{}, seen);
    } else {
      var elements := Elements(h, v.data.value, ElemType(w, v.t), v.count);
      sub := WalkAllVisits(w, h, elements, w.types(v.t).bytes, seen, depth + 1);
    }
  }

  /** What a pointer or an interface leads to, on top of its header. */
  lemma OnTopTallies(w: World, h: Heap, child: Value, bytes: ByteCount, seen: set<Addr>, e: Estimate, tour: Tour)
    requires Tallies(w, h, [child], 0, seen, e, tour)
    ensures Tallies(w, h, [child], bytes, seen, OnTop(bytes, e), tour)
  {
    SumOwnNonNegative(w, tour.entered);
    SafeAddMin(bytes, SumOwn(w, tour.entered));
  }

  lemma {:induction false} LinkVisits(w: World, h: Heap, v: Value, seen: set<Addr>, depth: nat)
    returns (sub: Tour)
    requires HasType(w, v) && HeapOk(w, h) && depth <= MAX_DEPTH
    requires (v.PointerValue? && v.data.Some?) || (v.InterfaceValue? && v.dynamic.Some?)
    requires Whole(Contents(w, h, v, Some(seen), depth))
    ensures Tallies(w, h, Children(w, h, v), Own(w, v), seen, Contents(w, h, v, Some(seen), depth), sub)
    decreases MAX_DEPTH + 1 - depth, 0, 0
  {
    var child := Children(w, h, v)[0];
    var e := Walk(w, h, child, v.PointerValue?, Some(seen), depth + 1);
    sub := WalkVisits(w, h, child, v.PointerValue?, seen, depth + 1);
    OnTopTallies(w, h, child, w.types(v.t).bytes, seen, e, sub);
  }

  lemma {:induction false} ContentsVisits(w: World, h: Heap, v: Value, seen: set<Addr>, depth: nat)
    returns (sub: Tour)
    requires HasType(w, v) && HeapOk(w, h) && depth <= MAX_DEPTH
    requires Whole(Contents(w, h, v, Some(seen), depth))
    ensures Tallies(w, h, Children(w, h, v), Own(w, v), seen, Contents(w, h, v, Some(seen), depth), sub)
    decreases MAX_DEPTH + 1 - depth, 0, 1
  {
    if v.CompositeValue? {
      sub := WalkAllVisits(w, h, v.parts, 0, seen, depth + 1);
    } else if v.SliceValue? {
      sub := SliceVisits(w, h, v, seen, depth);
    } else if (v.PointerValue? && v.data.Some?) || (v.InterfaceValue? && v.dynamic.Some?) {
      sub := LinkVisits(w, h, v, seen, depth);
    } else {
      NothingTallies(w, h, Own(w, v), seen, Contents(w, h, v, Some(seen), depth));
      return Tour([], multiset{}, seen);
    }
  }

  lemma LastVisit(w: World, h: Heap, parts: seq<Value>, seen: set<Addr>, a: Tour, b: Tour)
    requires parts != [] && Visit(w, h, parts[..|parts| - 1], seen, a)
    requires Visit(w, h, [parts[|parts| - 1]], a.seen, b)
    ensures Visit(w, h, parts, seen, Joined(a, b))
  {
    var n := |parts| - 1;
    VisitConcat(w, h, parts[..n], [parts[n]], seen, a, b);
    assert parts[..n] + [parts[n]] == parts;
  }

  lemma LastTallies(
    w: World, h: Heap, parts: seq<Value>, start: ByteCount, seen: set<Addr>, before: Estimate, a: Tour,
    e: Estimate, b: Tour, all: Estimate)
    requires parts != [] && Tallies(w, h, parts[..|parts| - 1], start, seen, before, a)
    requires Tallies(w, h, [parts[|parts| - 1]], 0, a.seen, e, b)
    requires all.size == SafeAdd(before.size, e.size) && all.visited == e.visited
    ensures Tallies(w, h, parts, start, seen, all, Joined(a, b))
  {
    LastVisit(w, h, parts, seen, a, b);
    SumLast(w, start, a.entered, b.entered);
  }

  lemma {:induction false} WalkAllVisits(
    w: World, h: Heap, parts: seq<Value>, start: ByteCount, seen: set<Addr>, depth: nat)
    returns (tour: Tour)
    requires HeapOk(w, h) && forall i :: 0 <= i < |parts| ==> HasType(w, parts[i])
    requires Whole(WalkAll(w, h, parts, start, Some(seen), depth))
    ensures Tallies(w, h, parts, start, seen, WalkAll(w, h, parts, start, Some(seen), depth), tour)
    decreases MAX_DEPTH + 1 - depth, 2 + |parts|
  {
    var all := WalkAll(w, h, parts, start, Some(seen), depth);
    if parts == [] {
      NothingTallies(w, h, start, seen, all);
      return Tour([], multiset{}, seen);
    }
    var n := |parts| - 1;
    var before := WalkAll(w, h, parts[..n], start, Some(seen), depth);
    var a := WalkAllVisits(w, h, parts[..n], start, seen, depth);
    var e := Walk(w, h, parts[n], true, before.visited, depth);
    var b := WalkVisits(w, h, parts[n], true, a.seen, depth);
    LastTallies(w, h, parts, start, seen, before, a, e, b, all);
    return Joined(a, b);
  }

  lemma {:induction false} ChildrenOfHas(w: World, h: Heap, vs: seq<Value>, i: nat, child: Value)
    requires i < |vs| && child in Children(w, h, vs[i])
    ensures child in ChildrenOf(w, h, vs)
  {
    var n := |vs| - 1;
    if i < n {
      ChildrenOfHas(w, h, vs[..n], i, child);
    }
  }

  /** Nothing that a value entered leads to is left out: it is entered too, or its address has
      been seen. */
  lemma VisitCloses(w: World, h: Heap, roots: seq<Value>, seen: set<Addr>, tour: Tour, i: nat, child: Value)
    requires Visit(w, h, roots, seen, tour) && i < |tour.entered| && child in Children(w, h, tour.entered[i])
    ensures child in tour.entered || (Target(child).Some? && Target(child).value in tour.seen)
  {
    ChildrenOfHas(w, h, tour.entered, i, child);
    assert child in multiset(roots) + ChildrenOf(w, h, tour.entered);
    assert child in multiset(tour.entered) || child in tour.skipped;
  }

  // ---------- the payload itself ----------

  /** The values that a payload holds by value, without its references. */
  function Skeleton(v: Value): seq<Value>
    decreases v, if v.CompositeValue? then |v.parts| + 1 else 0
  {
    if Target(v).Some? then []
    else
      match v
      case CompositeValue(_, parts) => [v] + SkeletonOf(v, |parts|)
      case InterfaceValue(_, Some(d)) => [v] + Skeleton(d)
      case _ => [v]
  }

  function SkeletonOf(v: Value, n: nat): seq<Value>
    requires v.CompositeValue? && n <= |v.parts|
    decreases v, n
  {
    if n == 0 then [] else SkeletonOf(v, n - 1) + Skeleton(v.parts[n - 1])
  }

  /** The references that it holds by value, in order. */
  function Frontier(v: Value): seq<Value>
    decreases v, if v.CompositeValue? then |v.parts| + 1 else 0
  {
    if Target(v).Some? then [v]
    else
      match v
      case CompositeValue(_, parts) => FrontierOf(v, |parts|)
      case InterfaceValue(_, Some(d)) => Frontier(d)
      case _ => []
  }

  function FrontierOf(v: Value, n: nat): seq<Value>
    requires v.CompositeValue? && n <= |v.parts|
    decreases v, n
  {
    if n == 0 then [] else FrontierOf(v, n - 1) + Frontier(v.parts[n - 1])
  }

  function SumTours(w: World, tours: seq<Tour>): int {
    if tours == [] then 0 else SumTours(w, tours[..|tours| - 1]) + SumOwn(w, tours[|tours| - 1].entered)
  }

  lemma {:induction false} SumToursConcat(w: World, a: seq<Tour>, b: seq<Tour>)
    ensures SumTours(w, a + b) == SumTours(w, a) + SumTours(w, b)
    decreases |b|
  {
    if b == [] {
      assert a + b == a;
    } else {
      SumToursConcat(w, a, b[..|b| - 1]);
      assert (a + b)[..|a + b| - 1] == a + b[..|b| - 1];
    }
  }

  lemma {:induction false} SumToursNonNegative(w: World, tours: seq<Tour>)
    ensures SumTours(w, tours) >= 0
  {
    if tours != [] {
      SumToursNonNegative(w, tours[..|tours| - 1]);
      SumOwnNonNegative(w, tours[|tours| - 1].entered);
    }
  }

  ghost predicate Paired<T, U>(p: (T, U) -> bool, ts: seq<T>, us: seq<U>) {
    |ts| == |us| && forall i :: 0 <= i < |ts| ==> p(ts[i], us[i])
  }

  lemma PairedConcat<T, U>(p: (T, U) -> bool, ts: seq<T>, us: seq<U>, ts': seq<T>, us': seq<U>)
    requires Paired(p, ts, us) && Paired(p, ts', us')
    ensures Paired(p, ts + ts', us + us')
  {
  }

  ghost function FreshVisit(w: World, h: Heap): (Value, Tour) -> bool {
    (ref, tour) => Visit(w, h, [ref], {}, tour)
  }

  /** Each reference starts a visit of its own, with nothing seen. */
  ghost predicate OwnVisits(w: World, h: Heap, refs: seq<Value>, tours: seq<Tour>) {
    Paired(FreshVisit(w, h), refs, tours)
  }

  /** The estimate adds up what is held by value and a visit from each reference. */
  ghost predicate Totals(w: World, h: Heap, held: seq<Value>, refs: seq<Value>, e: Estimate, tours: seq<Tour>) {
    && OwnVisits(w, h, refs, tours) && e.visited == None
    && e.size == Min(MAX_INT64, SumOwn(w, held) + SumTours(w, tours))
  }

  lemma TotalsConcat(
    w: World, h: Heap, held: seq<Value>, refs: seq<Value>, before: Estimate, a: seq<Tour>,
    held': seq<Value>, refs': seq<Value>, e: Estimate, b: seq<Tour>, all: Estimate)
    requires Totals(w, h, held, refs, before, a) && Totals(w, h, held', refs', e, b)
    requires all.size == SafeAdd(before.size, e.size) && all.visited == None
    ensures Totals(w, h, held + held', refs + refs', all, a + b)
  {
    PairedConcat(FreshVisit(w, h), refs, a, refs', b);
    SumOwnConcat(w, held, held');
    SumToursConcat(w, a, b);
    SumOwnNonNegative(w, held);
    SumOwnNonNegative(w, held');
    SumToursNonNegative(w, a);
    SumToursNonNegative(w, b);
    SafeAddMin(SumOwn(w, held) + SumTours(w, a), SumOwn(w, held') + SumTours(w, b));
  }

  lemma HeldAlone(w: World, h: Heap, v: Value, e: Estimate)
    requires e.visited == None && e.size == Min(MAX_INT64, Own(w, v))
    ensures Totals(w, h, [v], [], e, [])
  {
    assert [v][..0] == [];
    assert SumOwn(w, [v]) == Own(w, v);
  }

  /** Without a visited set, a reference starts with an empty one that it does not hand back. */
  lemma RefAlone(w: World, h: Heap, v: Value, addressable: bool, depth: nat) returns (tour: Tour)
    requires HasType(w, v) && HeapOk(w, h) && Target(v).Some?
    requires Whole(Walk(w, h, v, addressable, None, depth))
    ensures Totals(w, h, [], [v], Walk(w, h, v, addressable, None, depth), [tour])
  {
    tour := WalkVisits(w, h, v, addressable, {}, depth);
    assert [tour][..0] == [];
    assert [v][..0] == [];
    assert SumTours(w, [tour]) == SumOwn(w, tour.entered);
  }

  /** A whole estimate of a payload: what it holds by value, and from each of its references the
      visit of what that leads to. */
  lemma {:induction false} PayloadTotals(w: World, h: Heap, v: Value, addressable: bool, depth: nat)
    returns (tours: seq<Tour>)
    requires HasType(w, v) && HeapOk(w, h) && Whole(Walk(w, h, v, addressable, None, depth))
    ensures Totals(w, h, Skeleton(v), Frontier(v), Walk(w, h, v, addressable, None, depth), tours)
    decreases v, if v.CompositeValue? then |v.parts| + 1 else 0
  {
    var e := Walk(w, h, v, addressable, None, depth);
    assert Target(v).None? ==> depth <= MAX_DEPTH && e == Contents(w, h, v, None, depth);
    if Target(v).Some? {
      var tour := RefAlone(w, h, v, addressable, depth);
      return [tour];
    } else if v.CompositeValue? {
      var all := WalkAll(w, h, v.parts, 0, None, depth + 1);
      assert v.parts[..|v.parts|] == v.parts;
      tours := PartsTotals(w, h, v, |v.parts|, depth + 1);
      HeldAlone(w, h, v, Estimate(0, true, None, false, false));
      TotalsConcat(w, h, [v], [], Estimate(0, true, None, false, false), [],
                   SkeletonOf(v, |v.parts|), FrontierOf(v, |v.parts|), all, tours, e);
      assert [] + FrontierOf(v, |v.parts|) == FrontierOf(v, |v.parts|) && [] + tours == tours;
    } else if v.InterfaceValue? && v.dynamic.Some? {
      var inner := Walk(w, h, v.dynamic.value, false, None, depth + 1);
      var head := Estimate(w.types(v.t).bytes, false, None, false, false);
      tours := PayloadTotals(w, h, v.dynamic.value, false, depth + 1);
      HeldAlone(w, h, v, head);
      TotalsConcat(w, h, [v], [], head, [], Skeleton(v.dynamic.value), Frontier(v.dynamic.value), inner, tours, e);
      assert [] + Frontier(v.dynamic.value) == Frontier(v.dynamic.value) && [] + tours == tours;
    } else {
      HeldAlone(w, h, v, e);
      return [];
    }
  }

  lemma {:induction false} PartsTotals(w: World, h: Heap, v: Value, n: nat, depth: nat)
    returns (tours: seq<Tour>)
    requires HasType(w, v) && HeapOk(w, h) && v.CompositeValue? && n <= |v.parts|
    requires Whole(WalkAll(w, h, v.parts[..n], 0, None, depth))
    ensures Totals(w, h, SkeletonOf(v, n), FrontierOf(v, n), WalkAll(w, h, v.parts[..n], 0, None, depth), tours)
    decreases v, n
  {
    if n == 0 {
      return [];
    }
    var m := n - 1;
    var all := WalkAll(w, h, v.parts[..n], 0, None, depth);
    WalkAllStep(w, h, v.parts, m, 0, None, depth);
    var before := WalkAll(w, h, v.parts[..m], 0, None, depth);
    var a := PartsTotals(w, h, v, m, depth);
    var e := Walk(w, h, v.parts[m], true, None, depth);
    var b := PayloadTotals(w, h, v.parts[m], true, depth);
    TotalsConcat(w, h, SkeletonOf(v, m), FrontierOf(v, m), before, a,
                 Skeleton(v.parts[m]), Frontier(v.parts[m]), e, b, all);
    return a + b;
  }

  // ---------- whole items ----------

  lemma AddsFixed(size: int, exact: int, names: int)
    requires size == Min(MAX_INT64, exact) && exact >= 0 && names >= 0
    ensures Min(MAX_INT64, MIN_ITEM_SIZE + size + names) == Min(MAX_INT64, 112 + exact + 56 + names)
  {
  }

  /** The size of an item whose payload is walked: fixed overhead, what the payload holds by value,
      a visit from each of its references, and the two event strings. */
  lemma DataSizeLaw(w: World, h: Heap, data: QueueData) returns (tours: seq<Tour>)
    requires PayloadOk(w, h, data.payload) && data.payload.Other?
    requires Whole(Walk(w, h, data.payload.value, false, None, 0))
    ensures OwnVisits(w, h, Frontier(data.payload.value), tours)
    ensures DataSize(w, h, data) == Min(MAX_INT64,
      112 + SumOwn(w, Skeleton(data.payload.value)) + SumTours(w, tours) + 56 + data.queueName + data.eventType)
  {
    tours := PayloadTotals(w, h, data.payload.value, false, 0);
    SumOwnNonNegative(w, Skeleton(data.payload.value));
    SumToursNonNegative(w, tours);
    AddsFixed(PayloadSize(w, h, data.payload), SumOwn(w, Skeleton(data.payload.value)) + SumTours(w, tours),
              data.queueName + data.eventType);
  }

  /** The payloads that are not walked. */
  lemma ShortcutLaw(w: World, h: Heap, n: ByteCount, reported: int, name: ByteCount, event: ByteCount)
    requires reported <= MAX_INT64
    ensures DataSize(w, h, QueueData(Nothing, name, event)) == Min(MAX_INT64, 168 + name + event)
    ensures DataSize(w, h, QueueData(Bytes(n), name, event)) == Min(MAX_INT64, 168 + n + name + event)
    ensures DataSize(w, h, QueueData(Primitive(n), name, event)) == Min(MAX_INT64, 168 + n + name + event)
    ensures reported >= 0 ==>
      DataSize(w, h, QueueData(Custom(reported), name, event)) == Min(MAX_INT64, 168 + reported + name + event)
    ensures reported < 0 ==>
      DataSize(w, h, QueueData(Custom(reported), name, event)) == Min(MAX_INT64, 168 + name + event)
  {
  }
}
