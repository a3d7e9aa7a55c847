/**
 Where the estimator stops short: beyond the depth cut-off, after too many addresses, at values
 too large to copy; and where it counts an address twice.
 */
module SizeBounds {
  import opened QueueTypes
  import opened SizeEstimator
  import opened SizeLaws

  // ---------- when an estimate is not whole ----------

  ghost predicate Leads(w: World, h: Heap, path: seq<Value>, i: nat)
    requires i < |path| - 1
  {
    path[i + 1] in Children(w, h, path[i])
  }

  /** Each value leads to the next. */
  ghost predicate Path(w: World, h: Heap, path: seq<Value>) {
    forall i :: 0 <= i < |path| - 1 ==> Leads(w, h, path, i)
  }

  lemma PathFrom(w: World, h: Heap, v: Value, path: seq<Value>)
    requires path != [] && path[0] in Children(w, h, v) && Path(w, h, path)
    ensures Path(w, h, [v] + path)
  {
    forall i | 0 <= i < |[v] + path| - 1
      ensures Leads(w, h, [v] + path, i)
    {
      if i > 0 {
        assert Leads(w, h, path, i - 1);
      }
    }
  }

  /** A walk is cut only where values are nested beyond the cut-off. */
  lemma {:induction false} CutIsDeep(w: World, h: Heap, v: Value, addressable: bool, visited: Visited, depth: nat)
    returns (path: seq<Value>)
    requires Walk(w, h, v, addressable, visited, depth).cut
    ensures path != [] && path[0] == v && Path(w, h, path) && depth + |path| - 1 > 1000
    decreases MAX_DEPTH + 1 - depth, 1
  {
    if depth > MAX_DEPTH {
      return [v];
    }
    var inner := if Target(v).None? then visited else Some(Seen(visited) + {Target(v).value});
    var rest := CutChildIsDeep(w, h, v, inner, depth);
    PathFrom(w, h, v, rest);
    return [v] + rest;
  }

  lemma {:induction false} CutChildIsDeep(w: World, h: Heap, v: Value, visited: Visited, depth: nat)
    returns (path: seq<Value>)
    requires depth <= MAX_DEPTH && Contents(w, h, v, visited, depth).cut
    ensures path != [] && path[0] in Children(w, h, v) && Path(w, h, path) && depth + |path| > 1000
    decreases MAX_DEPTH + 1 - depth, 0
  {
    match v
    case PointerValue(t, data) =>
      path := CutIsDeep(w, h, h.cell(data.value, ElemType(w, t)), true, visited, depth + 1);
    case InterfaceValue(_, dynamic) =>
      path := CutIsDeep(w, h, dynamic.value, false, visited, depth + 1);
    case CompositeValue(_, parts) =>
      path := CutPartIsDeep(w, h, parts, 0, visited, depth + 1);
    case SliceValue(t, data, n) =>
      path := CutPartIsDeep(w, h, Elements(h, data.value, ElemType(w, t), n), w.types(t).bytes, visited, depth + 1);
  }

  lemma {:induction false} CutPartIsDeep(
    w: World, h: Heap, parts: seq<Value>, start: ByteCount, visited: Visited, depth: nat)
    returns (path: seq<Value>)
    requires WalkAll(w, h, parts, start, visited, depth).cut
    ensures path != [] && path[0] in parts && Path(w, h, path) && depth + |path| - 1 > 1000
    decreases MAX_DEPTH + 1 - depth, 2 + |parts|
  {
    var n := |parts| - 1;
    var before := WalkAll(w, h, parts[..n], start, visited, depth);
    if before.cut {
      path := CutPartIsDeep(w, h, parts[..n], start, visited, depth);
    } else {
      path := CutIsDeep(w, h, parts[n], true, before.visited, depth);
    }
  }

  /** What is looked at no further counts as prohibitively large, or as nothing beyond the cut-off. */
  lemma BarredLaw(w: World, h: Heap, v: Value, addressable: bool, visited: Visited, depth: nat)
    ensures
      var e := Walk(w, h, v, addressable, visited, depth);
      && (depth > 1000 ==> e.size == 0 && e.cut)
      && (depth <= 1000 && visited.Some? && |visited.value| > 10000 ==> e.size == 0x100_0000_0000 && e.barred)
      && (depth <= 1000 && v.CompositeValue? && !addressable && w.types(v.t).bytes > w.maxMemory ==>
            e.size == 0x100_0000_0000 && e.barred)
  {
  }

  /** The path leads from the value to an array or struct larger than the memory limit. */
  ghost predicate TooLargeBelow(w: World, h: Heap, v: Value, path: seq<Value>) {
    && path != [] && path[0] == v && Path(w, h, path)
    && path[|path| - 1].CompositeValue? && w.types(path[|path| - 1].t).bytes > w.maxMemory
  }

  lemma {:induction false} VisitedGrows(w: World, h: Heap, v: Value, addressable: bool, seen: set<Addr>, depth: nat)
    ensures Walk(w, h, v, addressable, Some(seen), depth).visited.Some?
    ensures seen <= Walk(w, h, v, addressable, Some(seen), depth).visited.value
    decreases MAX_DEPTH + 1 - depth, 1
  {
    if depth <= MAX_DEPTH {
      ContentsGrows(w, h, v, seen, depth);
      if Target(v).Some? {
        ContentsGrows(w, h, v, seen + {Target(v).value}, depth);
      }
    }
  }

  lemma {:induction false} ContentsGrows(w: World, h: Heap, v: Value, seen: set<Addr>, depth: nat)
    requires depth <= MAX_DEPTH
    ensures Contents(w, h, v, Some(seen), depth).visited.Some?
    ensures seen <= Contents(w, h, v, Some(seen), depth).visited.value
    decreases MAX_DEPTH + 1 - depth, 0
  {
    match v
    case CompositeValue(_, parts) => AllGrows(w, h, parts, 0, seen, depth + 1);
    case SliceValue(t, data, n) =>
      if data.Some? {
        AllGrows(w, h, Elements(h, data.value, ElemType(w, t), n), w.types(t).bytes, seen, depth + 1);
      }
    case PointerValue(t, data) =>
      if data.Some? { VisitedGrows(w, h, h.cell(data.value, ElemType(w, t)), true, seen, depth + 1); }
    case InterfaceValue(_, dynamic) =>
      if dynamic.Some? { VisitedGrows(w, h, dynamic.value, false, seen, depth + 1); }
    case _ =>
  }

  lemma {:induction false} AllGrows(
    w: World, h: Heap, parts: seq<Value>, start: ByteCount, seen: set<Addr>, depth: nat)
    ensures WalkAll(w, h, parts, start, Some(seen), depth).visited.Some?
    ensures seen <= WalkAll(w, h, parts, start, Some(seen), depth).visited.value
    decreases MAX_DEPTH + 1 - depth, 2 + |parts|
  {
    if parts != [] {
      var n := |parts| - 1;
      AllGrows(w, h, parts[..n], start, seen, depth);
      var mid := WalkAll(w, h, parts[..n], start, Some(seen), depth).visited.value;
      VisitedGrows(w, h, parts[n], true, mid, depth);
    }
  }

  /** The same, seen from a child: an empty path when it is the number of addresses. */
  ghost predicate ChildTooLarge(w: World, h: Heap, children: seq<Value>, after: Visited, path: seq<Value>) {
    && after.Some?
    && if path == [] then |after.value| > 10000 else path[0] in children && TooLargeBelow(w, h, path[0], path)
  }

  lemma SubsetSize(a: set<Addr>, b: set<Addr>)
    requires a <= b
    ensures |a| <= |b|
  {
    assert b == a + (b - a);
  }

  /** With a shared visited set, an estimate is barred only when more than 10000 addresses have
      been seen or something below is too large. */
  lemma {:induction false} BarredIsLarge(w: World, h: Heap, v: Value, addressable: bool, seen: set<Addr>, depth: nat)
    returns (path: seq<Value>)
    requires Walk(w, h, v, addressable, Some(seen), depth).barred
    ensures
      var after := Walk(w, h, v, addressable, Some(seen), depth).visited;
      after.Some? && (|after.value| > 10000 || TooLargeBelow(w, h, v, path))
    decreases MAX_DEPTH + 1 - depth, 1
  {
    if Crowded(Some(seen)) || Oversized(w, v, addressable) {
      return [v];
    }
    var inner := if Target(v).None? then seen else seen + {Target(v).value};
    path := BarredChildIsLarge(w, h, v, inner, depth);
    if path != [] {
      PathFrom(w, h, v, path);
      path := [v] + path;
    }
  }

  lemma {:induction false} BarredChildIsLarge(w: World, h: Heap, v: Value, seen: set<Addr>, depth: nat)
    returns (path: seq<Value>)
    requires depth <= MAX_DEPTH && Contents(w, h, v, Some(seen), depth).barred
    ensures ChildTooLarge(w, h, Children(w, h, v), Contents(w, h, v, Some(seen), depth).visited, path)
    decreases MAX_DEPTH + 1 - depth, 0
  {
    match v
    case PointerValue(t, data) =>
      path := BarredLink(w, h, h.cell(data.value, ElemType(w, t)), true, seen, depth + 1);
    case InterfaceValue(_, dynamic) =>
      path := BarredLink(w, h, dynamic.value, false, seen, depth + 1);
    case CompositeValue(_, parts) =>
      path := BarredPartIsLarge(w, h, parts, 0, seen, depth + 1);
    case SliceValue(t, data, n) =>
      var elements := Elements(h, data.value, ElemType(w, t), n);
      path := BarredPartIsLarge(w, h, elements, w.types(t).bytes, seen, depth + 1);
  }

  lemma {:induction false} BarredLink(w: World, h: Heap, v: Value, addressable: bool, seen: set<Addr>, depth: nat)
    returns (path: seq<Value>)
    requires Walk(w, h, v, addressable, Some(seen), depth).barred
    ensures ChildTooLarge(w, h, [v], Walk(w, h, v, addressable, Some(seen), depth).visited, path)
    decreases MAX_DEPTH + 1 - depth, 2
  {
    path := BarredIsLarge(w, h, v, addressable, seen, depth);
    if |Walk(w, h, v, addressable, Some(seen), depth).visited.value| > 10000 {
      path := [];
    }
  }

  lemma {:induction false} BarredPartIsLarge(
    w: World, h: Heap, parts: seq<Value>, start: ByteCount, seen: set<Addr>, depth: nat)
    returns (path: seq<Value>)
    requires WalkAll(w, h, parts, start, Some(seen), depth).barred
    ensures ChildTooLarge(w, h, parts, WalkAll(w, h, parts, start, Some(seen), depth).visited, path)
    decreases MAX_DEPTH + 1 - depth, 3 + |parts|
  {
    var n := |parts| - 1;
    var before := WalkAll(w, h, parts[..n], start, Some(seen), depth);
    AllGrows(w, h, parts[..n], start, seen, depth);
    var mid := before.visited.value;
    VisitedGrows(w, h, parts[n], true, mid, depth);
    if before.barred {
      path := BarredPartIsLarge(w, h, parts[..n], start, seen, depth);
      if path == [] {
        SubsetSize(mid, Walk(w, h, parts[n], true, Some(mid), depth).visited.value);
      }
    } else {
      path := BarredLink(w, h, parts[n], true, mid, depth);
    }
  }

  /** Something below the payload is too large, or a visit from one of its references sees too much. */
  ghost predicate PayloadTooLarge(w: World, h: Heap, v: Value, path: seq<Value>, ref: Value, depth: nat) {
    || TooLargeBelow(w, h, v, path)
    || (ref in Frontier(v)
        && var after := Walk(w, h, ref, true, Some({}), depth).visited;
        after.Some? && |after.value| > 10000)
  }

  lemma {:induction false} NilWalk(w: World, h: Heap, v: Value, addressable: bool, depth: nat)
    ensures Walk(w, h, v, addressable, None, depth).visited == None
    decreases MAX_DEPTH + 1 - depth, 1
  {
    if depth <= MAX_DEPTH && Target(v).None? {
      if v.CompositeValue? {
        NilStaysNil(w, h, v.parts, depth + 1);
      } else if v.InterfaceValue? && v.dynamic.Some? {
        NilWalk(w, h, v.dynamic.value, false, depth + 1);
      }
    }
  }

  lemma {:induction false} NilStaysNil(w: World, h: Heap, parts: seq<Value>, depth: nat)
    ensures WalkAll(w, h, parts, 0, None, depth).visited == None
    decreases MAX_DEPTH + 1 - depth, 2 + |parts|
  {
    if parts != [] {
      var n := |parts| - 1;
      NilStaysNil(w, h, parts[..n], depth);
      NilWalk(w, h, parts[n], true, depth);
    }
  }

  lemma {:induction false} FrontierHas(v: Value, m: nat, n: nat, ref: Value)
    requires v.CompositeValue? && m < n <= |v.parts| && ref in Frontier(v.parts[m])
    ensures ref in FrontierOf(v, n)
  {
    if m < n - 1 {
      FrontierHas(v, m, n - 1, ref);
    }
  }

  lemma {:induction false} BarredPayload(w: World, h: Heap, v: Value, addressable: bool, depth: nat)
    returns (path: seq<Value>, ref: Value, d: nat)
    requires Walk(w, h, v, addressable, None, depth).barred
    ensures PayloadTooLarge(w, h, v, path, ref, d)
    decreases v, if v.CompositeValue? then |v.parts| + 1 else 0
  {
    path, ref, d := [v], v, depth;
    if Target(v).Some? {
      path := BarredIsLarge(w, h, v, true, {}, depth);
    } else if !Oversized(w, v, addressable) {
      assert Contents(w, h, v, None, depth).barred;
      if v.CompositeValue? {
        assert v.parts[..|v.parts|] == v.parts;
        path, ref, d := BarredHeld(w, h, v, |v.parts|, depth + 1);
      } else {
        path, ref, d := BarredPayload(w, h, v.dynamic.value, false, depth + 1);
        if TooLargeBelow(w, h, v.dynamic.value, path) {
          PathFrom(w, h, v, path);
          path := [v] + path;
        }
      }
    }
  }

  lemma {:induction false} BarredHeld(w: World, h: Heap, v: Value, n: nat, depth: nat)
    returns (path: seq<Value>, ref: Value, d: nat)
    requires v.CompositeValue? && n <= |v.parts| && WalkAll(w, h, v.parts[..n], 0, None, depth).barred
    ensures PayloadTooLarge(w, h, v, path, ref, d)
    decreases v, n
  {
    var m := n - 1;
    WalkAllStep(w, h, v.parts, m, 0, None, depth);
    NilStaysNil(w, h, v.parts[..m], depth);
    if WalkAll(w, h, v.parts[..m], 0, None, depth).barred {
      path, ref, d := BarredHeld(w, h, v, m, depth);
    } else {
      path, ref, d := BarredPayload(w, h, v.parts[m], true, depth);
      if TooLargeBelow(w, h, v.parts[m], path) {
        PathFrom(w, h, v, path);
        path := [v] + path;
      } else {
        FrontierHas(v, m, |v.parts|, ref);
      }
    }
  }

  // ---------- the visited set is not shared between the fields of a payload ----------

  /** All that is entered from the references of a payload. */
  function Entered(tours: seq<Tour>): seq<Value> {
    if tours == [] then [] else Entered(tours[..|tours| - 1]) + tours[|tours| - 1].entered
  }

  ghost predicate Disjoint(tours: seq<Tour>) {
    forall i, j :: 0 <= i < j < |tours| ==> Targets(tours[i].entered) !! Targets(tours[j].entered)
  }

  lemma {:induction false} EnteredTargets(tours: seq<Tour>, i: nat)
    requires i < |tours|
    ensures Targets(tours[i].entered) <= Targets(Entered(tours))
  {
    var n := |tours| - 1;
    TargetsConcat(Entered(tours[..n]), tours[n].entered);
    if i < n {
      EnteredTargets(tours[..n], i);
    }
  }

  lemma EntersSplit(a: seq<Value>, b: seq<Value>)
    requires EntersOnce(a + b, {})
    ensures EntersOnce(a, {}) && Targets(a) !! Targets(b)
  {
    forall i, j | 0 <= i < j < |a| && Target(a[i]).Some? && Target(a[j]).Some?
      ensures Target(a[i]).value != Target(a[j]).value
    {
      assert (a + b)[i] == a[i] && (a + b)[j] == a[j];
    }
    forall i, j | 0 <= i < |a| && 0 <= j < |b| && Target(a[i]).Some? && Target(b[j]).Some?
      ensures Target(a[i]).value != Target(b[j]).value
    {
      assert (a + b)[i] == a[i] && (a + b)[|a| + j] == b[j];
    }
  }

  lemma {:induction false} EnteredFrom(tours: seq<Tour>, x: Addr)
    requires x in Targets(Entered(tours))
    ensures exists i :: 0 <= i < |tours| && x in Targets(tours[i].entered)
  {
    var n := |tours| - 1;
    TargetsConcat(Entered(tours[..n]), tours[n].entered);
    if x !in Targets(tours[n].entered) {
      EnteredFrom(tours[..n], x);
      var i :| 0 <= i < n && x in Targets(tours[..n][i].entered);
      assert tours[i] == tours[..n][i];
    }
  }

  lemma EntersApart(a: seq<Value>, b: seq<Value>)
    requires EntersOnce(a, {}) && EntersOnce(b, {}) && Targets(a) !! Targets(b)
    ensures EntersOnce(a + b, {})
  {
    forall i | 0 <= i < |b| && Target(b[i]).Some?
      ensures Target(b[i]).value !in Targets(a)
    {
      assert Target(b[i]).value in Targets(b);
    }
    EntersConcat(a, b, {});
  }

  /** Over a whole payload each address is counted once if and only if no address is reached from
      two of its references. */
  lemma {:induction false} OnceIffDisjoint(tours: seq<Tour>)
    requires forall i :: 0 <= i < |tours| ==> EntersOnce(tours[i].entered, {})
    ensures EntersOnce(Entered(tours), {}) <==> Disjoint(tours)
  {
    if tours != [] {
      var n := |tours| - 1;
      var a, b := Entered(tours[..n]), tours[n].entered;
      OnceIffDisjoint(tours[..n]);
      if Disjoint(tours) {
        assert Disjoint(tours[..n]);
        forall x | x in Targets(a)
          ensures x !in Targets(b)
        {
          EnteredFrom(tours[..n], x);
        }
        EntersApart(a, b);
      }
      if EntersOnce(Entered(tours), {}) {
        EntersSplit(a, b);
        forall i, j | 0 <= i < j < |tours|
          ensures Targets(tours[i].entered) !! Targets(tours[j].entered)
        {
          if j == n {
            EnteredTargets(tours[..n], i);
          } else {
            assert tours[..n][i] == tours[i] && tours[..n][j] == tours[j];
          }
        }
      }
    }
  }

  lemma FirstPointer(w: World, h: Heap, p: Value, visited: Visited, depth: nat)
    requires p == PointerValue(1, Some(5)) && depth < 10 && (visited == None || visited == Some({7}))
    requires w.types(1) == TypeInfo(8, Pointer(0)) && w.types(0) == TypeInfo(8, Plain(true))
    requires h.cell(5, 0) == PlainValue(0)
    ensures
      var e := Walk(w, h, p, true, visited, depth);
      e.size == 16 && e.visited == (if visited == None then None else Some({7, 5}))
  {
    var seen := Seen(visited) + {5};
    assert seen == (if visited == None then {5} else {7, 5});
    assert Contents(w, h, PlainValue(0), Some(seen), depth + 1).size == 8;
    assert Walk(w, h, PlainValue(0), true, Some(seen), depth + 1).size == 8;
    assert Contents(w, h, p, Some(seen), depth).size == 16;
  }

  /** The two pointers one after the other, with and without a shared visited set. */
  lemma TwoPointers(w: World, h: Heap, p: Value, visited: Visited, depth: nat)
    requires p == PointerValue(1, Some(5)) && depth < 10 && (visited == None || visited == Some({7}))
    requires w.types(1) == TypeInfo(8, Pointer(0)) && w.types(0) == TypeInfo(8, Plain(true))
    requires h.cell(5, 0) == PlainValue(0)
    ensures WalkAll(w, h, [p, p], 0, visited, depth).size == if visited == None then 32 else 16
  {
    FirstPointer(w, h, p, visited, depth);
    WalkAllStep(w, h, [p, p], 0, 0, visited, depth);
    assert [p, p][..0] == [] && WalkAll(w, h, [], 0, visited, depth) == Estimate(0, true, visited, false, false);
    WalkAllStep(w, h, [p, p], 1, 0, visited, depth);
    assert [p, p][..2] == [p, p];
    assert visited != None ==> Walk(w, h, p, true, Some({7, 5}), depth).size == 0;
  }

  /** int64, a pointer to it, a struct of two such pointers, and a pointer to that. */
  function TwinTypes(t: TypeId): TypeInfo {
    if t == 0 then TypeInfo(8, Plain(true))
    else if t == 1 then TypeInfo(8, Pointer(0))
    else if t == 2 then TypeInfo(16, Composite([1, 1]))
    else TypeInfo(8, Pointer(2))
  }

  function Twins(): Value { CompositeValue(2, [PointerValue(1, Some(5)), PointerValue(1, Some(5))]) }

  function TwinCell(a: Addr, t: TypeId): Value { if t == 2 then Twins() else PlainValue(0) }

  lemma TwinsHeld(w: World, h: Heap)
    requires w == World(TwinTypes, DEFAULT_MAX_MEMORY) && h.cell == TwinCell
    ensures Walk(w, h, Twins(), false, None, 0).size == 32
    ensures Walk(w, h, Twins(), true, Some({7}), 1).size == 16
  {
    TwoPointers(w, h, PointerValue(1, Some(5)), None, 1);
    TwoPointers(w, h, PointerValue(1, Some(5)), Some({7}), 2);
  }

  /** A struct with two pointers to one int64: at the top the target is counted twice, behind a
      pointer once, and there the second pointer counts for nothing. */
  lemma SharedPointerCountedTwice(h: Heap)
    requires h.cell == TwinCell
    ensures
      var w := World(TwinTypes, DEFAULT_MAX_MEMORY);
      && Walk(w, h, Twins(), false, None, 0).size == 32
      && Walk(w, h, PointerValue(3, Some(7)), false, None, 0).size == 24
  {
    var w := World(TwinTypes, DEFAULT_MAX_MEMORY);
    TwinsHeld(w, h);
    assert Seen(None) + {7} == {7};
    assert h.cell(7, ElemType(w, 3)) == Twins();
  }
}
