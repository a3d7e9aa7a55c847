/**
 The payload size estimator: a walk over a value graph with a set of visited pointers, a
 depth cut-off and a per-type cache of fixed sizes.

 Reflection is abstracted: a value carries its type, and pointers and slices lead into a heap
 in which cycles are possible. `Walk` is the estimator without its cache.
 */
module SizeEstimator {
  import opened QueueTypes

  const HUGE := 0x100_0000_0000
  const MAX_DEPTH := 1000
  const MAX_VISITED := 10000

  type ByteCount = n: int | 0 <= n <= MAX_INT64

  // ---------- types and values ----------

  type TypeId = nat
  type Addr = nat

  /** Arrays and structs are composites of parts; a plain type is any other type whose size is
      the same for all its values. `basic` are the kinds from Bool to Float64. */
  datatype Kind =
    | Plain(basic: bool)
    | Text
    | Composite(parts: seq<TypeId>)
    | Slice(elem: TypeId)
    | Map
    | Pointer(elem: TypeId)
    | Interface

  datatype TypeInfo = TypeInfo(bytes: ByteCount, kind: Kind)

  /** The program's types, which may refer to each other in cycles. */
  datatype World = World(types: TypeId -> TypeInfo, maxMemory: int)

  datatype Value =
    | PlainValue(t: TypeId)
    | TextValue(t: TypeId, length: ByteCount)
    | CompositeValue(t: TypeId, parts: seq<Value>)
    | SliceValue(t: TypeId, data: Option<Addr>, count: nat)
    | MapValue(t: TypeId, data: Option<Addr>)
    | PointerValue(t: TypeId, data: Option<Addr>)
    | InterfaceValue(t: TypeId, dynamic: Option<Value>)

  /** What a pointer of some element type, or a slice of it at some index, leads to: a struct
      and its first field share an address. */
  datatype Heap = Heap(cell: (Addr, TypeId) -> Value, element: (Addr, TypeId, nat) -> Value)

  function ElemType(w: World, t: TypeId): TypeId {
    match w.types(t).kind
    case Slice(elem) => elem
    case Pointer(elem) => elem
    case _ => t
  }

  function Elements(h: Heap, a: Addr, t: TypeId, n: nat): seq<Value> {
    seq(n, (i: int) requires 0 <= i => h.element(a, t, i))
  }

  /** The elements of a slice of basic type are not looked at one by one. */
  predicate FlatElements(w: World, t: TypeId) {
    && w.types(t).kind.Slice?
    && var elem := w.types(w.types(t).kind.elem).kind;
    elem.Plain? && elem.basic
  }

  function ElemBytes(w: World, t: TypeId): int
    requires FlatElements(w, t)
  {
    w.types(w.types(t).kind.elem).bytes
  }

  /** What the Go runtime guarantees of a value: it matches its type, and a slice lies in memory. */
  ghost predicate HasType(w: World, v: Value) {
    match v
    case PlainValue(t) => w.types(t).kind.Plain?
    case TextValue(t, _) => w.types(t).kind.Text?
    case CompositeValue(t, parts) =>
      && w.types(t).kind.Composite? && |parts| == |w.types(t).kind.parts|
      && forall i :: 0 <= i < |parts| ==> HasType(w, parts[i]) && parts[i].t == w.types(t).kind.parts[i]
    case SliceValue(t, data, count) =>
      && w.types(t).kind.Slice? && (data.None? ==> count == 0)
      && (FlatElements(w, t) ==> count * ElemBytes(w, t) <= MAX_INT64)
    case MapValue(t, _) => w.types(t).kind.Map?
    case PointerValue(t, _) => w.types(t).kind.Pointer?
    case InterfaceValue(t, dynamic) => w.types(t).kind.Interface? && (dynamic.Some? ==> HasType(w, dynamic.value))
  }

  ghost predicate HeapOk(w: World, h: Heap) {
    (forall a, t :: HasType(w, h.cell(a, t))) && (forall a, t, i :: HasType(w, h.element(a, t, i)))
  }

  // ---------- the walk without a cache ----------

  /** Addition that sticks at the largest int64 and ignores a non-positive summand. */
  function SafeAdd(a: ByteCount, b: int): ByteCount {
    if b <= 0 then a else if a > MAX_INT64 - b then MAX_INT64 else a + b
  }

  /** The set a nil visited map stands for, None, is not shared with the caller. */
  type Visited = Option<set<Addr>>

  /** `cut` when some part of the value was too deep to be looked at, `barred` when some part was
      not looked at because too much had been visited or it was too large to be copied. */
  datatype Estimate = Estimate(size: ByteCount, fixed: bool, visited: Visited, cut: bool, barred: bool)

  predicate Crowded(visited: Visited) { visited.Some? && |visited.value| > MAX_VISITED }

  predicate Oversized(w: World, v: Value, addressable: bool) {
    v.CompositeValue? && !addressable && w.types(v.t).bytes > w.maxMemory
  }

  function Seen(visited: Visited): set<Addr> { if visited.Some? then visited.value else {} }

  function Target(v: Value): Option<Addr> {
    match v
    case SliceValue(_, data, _) => data
    case MapValue(_, data) => data
    case PointerValue(_, data) => data
    case _ => None
  }

  /** Two's-complement 64-bit product. */
  function Mul64(a: int, b: int): int {
    (a * b + 0x8000_0000_0000_0000) % 0x1_0000_0000_0000_0000 - 0x8000_0000_0000_0000
  }

  function OnTop(bytes: ByteCount, e: Estimate): Estimate {
    e.(size := SafeAdd(bytes, e.size), fixed := false)
  }

  function Walk(w: World, h: Heap, v: Value, addressable: bool, visited: Visited, depth: nat): Estimate
    decreases MAX_DEPTH + 1 - depth, 1
  {
    if depth > MAX_DEPTH then Estimate(0, false, visited, true, false)
    else if Crowded(visited) || Oversized(w, v, addressable) then Estimate(HUGE, false, visited, false, true)
    else if Target(v).None? then Contents(w, h, v, visited, depth)
    else if Target(v).value in Seen(visited) then Estimate(0, false, visited, false, false)
    else
      var e := Contents(w, h, v, Some(Seen(visited) + {Target(v).value}), depth);
      if visited.None? then e.(visited := None) else e
  }

  function Contents(w: World, h: Heap, v: Value, visited: Visited, depth: nat): Estimate
    requires depth <= MAX_DEPTH
    decreases MAX_DEPTH + 1 - depth, 0
  {
    var bytes := w.types(v.t).bytes;
    match v
    case PlainValue(_) => Estimate(bytes, true, visited, false, false)
    case TextValue(_, length) => Estimate(length, false, visited, false, false)
    case CompositeValue(_, parts) => WalkAll(w, h, parts, 0, visited, depth + 1)
    case SliceValue(t, data, n) =>
      if data.None? || n == 0 then Estimate(bytes, false, visited, false, false)
      else if FlatElements(w, t) then
        Estimate(SafeAdd(bytes, Mul64(n, ElemBytes(w, t))), false, visited, false, false)
      else WalkAll(w, h, Elements(h, data.value, ElemType(w, t), n), bytes, visited, depth + 1).(fixed := false)
    case MapValue(_, _) => Estimate(HUGE, false, visited, false, false)
    case PointerValue(t, data) =>
      if data.None? then Estimate(bytes, false, visited, false, false)
      else OnTop(bytes, Walk(w, h, h.cell(data.value, ElemType(w, t)), true, visited, depth + 1))
    case InterfaceValue(_, dynamic) =>
      if dynamic.None? then Estimate(bytes, false, visited, false, false)
      else OnTop(bytes, Walk(w, h, dynamic.value, false, visited, depth + 1))
  }

  function WalkAll(w: World, h: Heap, parts: seq<Value>, start: ByteCount, visited: Visited, depth: nat): Estimate
    decreases MAX_DEPTH + 1 - depth, 2 + |parts|
  {
    if parts == [] then Estimate(start, true, visited, false, false)
    else
      var n := |parts| - 1;
      var before := WalkAll(w, h, parts[..n], start, visited, depth);
      var e := Walk(w, h, parts[n], true, before.visited, depth);
      Estimate(SafeAdd(before.size, e.size), before.fixed && e.fixed, e.visited, before.cut || e.cut,
               before.barred || e.barred)
  }

  // ---------- types of one size ----------

  /** Unless it is barred or cut, the walk finds a fixed `size` and meets no pointer. */
  ghost predicate Agrees(
    w: World, h: Heap, v: Value, addressable: bool, visited: Visited, depth: nat, size: int)
  {
    || Crowded(visited) || Oversized(w, v, addressable)
    || var e := Walk(w, h, v, addressable, visited, depth);
    e.cut || (e.fixed && e.size == size && e.visited == visited)
  }

  /** All values of the type have this size, in every heap and context. */
  ghost predicate Uniform(w: World, t: TypeId, size: int) {
    forall h, v, addressable, visited, depth: nat ::
      HasType(w, v) && v.t == t ==> Agrees(w, h, v, addressable, visited, depth, size)
  }

  ghost predicate AllUniform(w: World, ts: seq<TypeId>, sizes: seq<ByteCount>) {
    |sizes| == |ts| && forall i :: 0 <= i < |ts| ==> Uniform(w, ts[i], sizes[i])
  }

  ghost function Total(start: ByteCount, sizes: seq<ByteCount>): ByteCount {
    if sizes == [] then start else SafeAdd(Total(start, sizes[..|sizes| - 1]), sizes[|sizes| - 1])
  }

  /** Each part's type has one size, that in `sizes`. */
  ghost predicate PartsSized(w: World, parts: seq<Value>, sizes: seq<ByteCount>) {
    |sizes| == |parts| && forall i :: 0 <= i < |parts| ==> Uniform(w, parts[i].t, sizes[i])
  }

  lemma PartsSizedStep(w: World, parts: seq<Value>, i: nat, sizes: seq<ByteCount>, size: ByteCount)
    requires i < |parts| && PartsSized(w, parts[..i], sizes) && Uniform(w, parts[i].t, size)
    ensures PartsSized(w, parts[..i + 1], sizes + [size])
  {
    forall j | 0 <= j <= i
      ensures Uniform(w, parts[..i + 1][j].t, (sizes + [size])[j])
    {
      assert j < i ==> Uniform(w, parts[..i][j].t, sizes[j]);
    }
  }

  lemma TotalStep(start: ByteCount, sizes: seq<ByteCount>, size: ByteCount)
    ensures Total(start, sizes + [size]) == SafeAdd(Total(start, sizes), size)
  {
    assert (sizes + [size])[..|sizes|] == sizes;
  }

  lemma WalkAllStep(
    w: World, h: Heap, parts: seq<Value>, i: nat, start: ByteCount, visited: Visited, depth: nat)
    requires i < |parts|
    ensures
      var before := WalkAll(w, h, parts[..i], start, visited, depth);
      var e := Walk(w, h, parts[i], true, before.visited, depth);
      WalkAll(w, h, parts[..i + 1], start, visited, depth)
      == Estimate(SafeAdd(before.size, e.size), before.fixed && e.fixed, e.visited, before.cut || e.cut,
               before.barred || e.barred)
  {
    assert parts[..i + 1][..i] == parts[..i];
  }

  lemma PlainUniform(w: World, t: TypeId)
    requires w.types(t).kind.Plain?
    ensures Uniform(w, t, w.types(t).bytes)
  {
    forall h, v, addressable, visited, depth: nat | HasType(w, v) && v.t == t
      ensures Agrees(w, h, v, addressable, visited, depth, w.types(t).bytes)
    {
    }
  }

  lemma {:induction false} PartsUniform(
    w: World, h: Heap, parts: seq<Value>, sizes: seq<ByteCount>, start: ByteCount, visited: Visited, depth: nat)
    requires |sizes| == |parts|
    requires forall i :: 0 <= i < |parts| ==> HasType(w, parts[i]) && Uniform(w, parts[i].t, sizes[i])
    requires !Crowded(visited)
    ensures
      var e := WalkAll(w, h, parts, start, visited, depth);
      e.cut || (e.fixed && e.size == Total(start, sizes) && e.visited == visited)
    decreases |parts|
  {
    if parts != [] {
      var n := |parts| - 1;
      PartsUniform(w, h, parts[..n], sizes[..n], start, visited, depth);
      assert Agrees(w, h, parts[n], true, visited, depth, sizes[n]);
    }
  }

  lemma CompositeUniform(w: World, t: TypeId, sizes: seq<ByteCount>)
    requires w.types(t).kind.Composite? && AllUniform(w, w.types(t).kind.parts, sizes)
    ensures Uniform(w, t, Total(0, sizes))
  {
    forall h, v, addressable, visited, depth: nat | HasType(w, v) && v.t == t
      ensures Agrees(w, h, v, addressable, visited, depth, Total(0, sizes))
    {
      if !Crowded(visited) {
        PartsUniform(w, h, v.parts, sizes, 0, visited, depth + 1);
      }
    }
  }

  /** Where the walk is neither barred nor cut, the one size of the type is what it finds. */
  lemma CacheHit(w: World, h: Heap, v: Value, addressable: bool, visited: Visited, depth: nat, size: int)
    requires HasType(w, v) && Uniform(w, v.t, size) && !Crowded(visited) && !Oversized(w, v, addressable)
    ensures
      var e := Walk(w, h, v, addressable, visited, depth);
      !e.cut ==> e.fixed && e.size == size && e.visited == visited
  {
    assert Agrees(w, h, v, addressable, visited, depth, size);
  }

  /** Whatever the cache holds is right; -1 marks a type of varying size. */
  ghost predicate CacheSound(w: World, cache: map<TypeId, int>) {
    forall t :: t in cache && cache[t] >= 0 ==> cache[t] <= MAX_INT64 && Uniform(w, t, cache[t])
  }

  /** Past the cut-off the walk sees less than a cached size says: the struct of one int64. */
  lemma CutOffHidesSize(h: Heap)
    ensures
      var w := World(t => TypeInfo(8, if t == 0 then Plain(true) else Composite([0])), DEFAULT_MAX_MEMORY);
      var v := CompositeValue(1, [PlainValue(0)]);
      Uniform(w, 1, 8) && Walk(w, h, v, true, None, MAX_DEPTH) == Estimate(0, false, None, true, false)
  {
    var w := World(t => TypeInfo(8, if t == 0 then Plain(true) else Composite([0])), DEFAULT_MAX_MEMORY);
    var v := CompositeValue(1, [PlainValue(0)]);
    PlainUniform(w, 0);
    CompositeUniform(w, 1, [8]);
    assert v.parts[..0] == [];
    assert WalkAll(w, h, v.parts, 0, None, MAX_DEPTH + 1) == Estimate(0, false, None, true, false);
  }

  // ---------- whole items ----------

  datatype Payload =
    | Nothing
    | Bytes(length: ByteCount)
    | Primitive(bytes: ByteCount)
    | Custom(reported: int)
    | Other(value: Value)

  /** An item to be sized: its payload and the lengths of its two event strings. */
  datatype QueueData = QueueData(payload: Payload, queueName: ByteCount, eventType: ByteCount)

  /** What the Go type system guarantees; Size() returns a 64-bit int. */
  ghost predicate PayloadOk(w: World, h: Heap, payload: Payload) {
    && HeapOk(w, h)
    && (payload.Other? ==> HasType(w, payload.value))
    && (payload.Custom? ==> payload.reported <= MAX_INT64)
  }

  ghost predicate CutShort(w: World, h: Heap, payload: Payload) {
    payload.Other? && Walk(w, h, payload.value, false, None, 0).cut
  }

  ghost function PayloadSize(w: World, h: Heap, payload: Payload): int {
    match payload
    case Nothing => 0
    case Bytes(length) => length
    case Primitive(bytes) => bytes
    case Custom(reported) => Max(0, reported)
    case Other(v) => Walk(w, h, v, false, None, 0).size
  }

  /** The exact sum, which only the largest int64 bounds. */
  ghost function DataSize(w: World, h: Heap, data: QueueData): int {
    Min(MAX_INT64, MIN_ITEM_SIZE + PayloadSize(w, h, data.payload) + data.queueName + data.eventType)
  }

  /** At least the fixed overhead, and exact unless the payload is nested too deeply. */
  ghost predicate SizedRight(w: World, h: Heap, data: QueueData, size: int) {
    size >= MIN_ITEM_SIZE && (!CutShort(w, h, data.payload) ==> size == DataSize(w, h, data))
  }

  // ---------- the walk with a cache ----------

  /** A visited map, shared by reference along a walk. */
  class PointerSet {
    var seen: set<Addr>

    constructor (seen: set<Addr>)
      ensures this.seen == seen
    {
      this.seen := seen;
    }
  }

  function Entries(p: PointerSet?): Visited
    reads p
  {
    if p == null then None else Some(p.seen)
  }

  class Estimator {
    const world: World
    var sizeCache: map<TypeId, int>

    ghost predicate Valid()
      reads this
    {
      CacheSound(world, sizeCache)
    }

    constructor (world: World)
      ensures Valid() && this.world == world
    {
      this.world := world;
      this.sizeCache := map[];
    }

    method EstimateValueSize(h: Heap, v: Value, addressable: bool, visited: PointerSet?, depth: nat)
      returns (size: ByteCount, fixed: bool)
      requires Valid() && HasType(world, v) && HeapOk(world, h)
      modifies this, visited
      ensures Valid()
      ensures fixed ==> Uniform(world, v.t, size)
      ensures
        var e := Walk(world, h, v, addressable, old(Entries(visited)), depth);
        !e.cut ==> size == e.size && fixed == e.fixed && Entries(visited) == e.visited
      decreases MAX_DEPTH + 1 - depth, 1
    {
      if depth > MAX_DEPTH {
        return 0, false;
      }
      if visited != null && |visited.seen| > MAX_VISITED {
        return HUGE, false;
      }
      if v.CompositeValue? && !addressable && world.types(v.t).bytes > world.maxMemory {
        return HUGE, false;
      }
      var inner := visited;
      var target := Target(v);
      if target.Some? {
        if visited != null && target.value in visited.seen {
          return 0, false;
        }
        if visited == null {
          inner := new PointerSet({});
        }
        inner.seen := inner.seen + {target.value};
      }
      if v.t in sizeCache && sizeCache[v.t] >= 0 {
        CacheHit(world, h, v, addressable, old(Entries(visited)), depth, sizeCache[v.t]);
        return sizeCache[v.t], true;
      }
      size, fixed := EstimateAndStore(h, v, inner, depth);
    }

    /** Computes a size that is not cached, and caches it unless the type is known to vary. */
    method EstimateAndStore(h: Heap, v: Value, visited: PointerSet?, depth: nat)
      returns (size: ByteCount, fixed: bool)
      requires Valid() && HasType(world, v) && HeapOk(world, h) && depth <= MAX_DEPTH
      modifies this, visited
      ensures Valid()
      ensures fixed ==> Uniform(world, v.t, size)
      ensures
        var e := Contents(world, h, v, old(Entries(visited)), depth);
        !e.cut ==> size == e.size && fixed == e.fixed && Entries(visited) == e.visited
      decreases MAX_DEPTH + 1 - depth, 0, 1
    {
      var known := v.t in sizeCache;
      size, fixed := EstimateContents(h, v, visited, depth);
      if !known {
        sizeCache := sizeCache[v.t := if fixed then size else -1];
      }
    }

    method EstimateContents(h: Heap, v: Value, visited: PointerSet?, depth: nat)
      returns (size: ByteCount, fixed: bool)
      requires Valid() && HasType(world, v) && HeapOk(world, h) && depth <= MAX_DEPTH
      modifies this, visited
      ensures Valid()
      ensures fixed ==> Uniform(world, v.t, size)
      ensures
        var e := Contents(world, h, v, old(Entries(visited)), depth);
        !e.cut ==> size == e.size && fixed == e.fixed && Entries(visited) == e.visited
      decreases MAX_DEPTH + 1 - depth, 0, 0
    {
      var bytes := world.types(v.t).bytes;
      size, fixed := bytes, false;
      match v
      case PlainValue(t) =>
        PlainUniform(world, t);
        fixed := true;
      case TextValue(_, length) => size := length;
      case CompositeValue(t, parts) =>
        ghost var sizes: seq<ByteCount>;
        size, fixed, sizes := EstimateParts(h, parts, 0, visited, depth + 1);
        if fixed {
          CompositeUniform(world, t, sizes);
        }
      case SliceValue(t, data, n) =>
        if data.Some? && n > 0 {
          if FlatElements(world, t) {
            size := SafeAdd(bytes, Mul64(n, ElemBytes(world, t)));
          } else {
            var elements := Elements(h, data.value, ElemType(world, t), n);
            var total, _, _ := EstimateParts(h, elements, bytes, visited, depth + 1);
            size := total;
          }
        }
      case MapValue(_, _) => size := HUGE;
      case PointerValue(t, data) =>
        if data.Some? {
          var elem, _ := EstimateValueSize(h, h.cell(data.value, ElemType(world, t)), true, visited, depth + 1);
          size := SafeAdd(bytes, elem);
        }
      case InterfaceValue(_, dynamic) =>
        if dynamic.Some? {
          var elem, _ := EstimateValueSize(h, dynamic.value, false, visited, depth + 1);
          size := SafeAdd(bytes, elem);
        }
    }

    /** The loop over the parts of a composite or the elements of a slice. */
    method EstimateParts(h: Heap, parts: seq<Value>, start: ByteCount, visited: PointerSet?, depth: nat)
      returns (size: ByteCount, fixed: bool, ghost sizes: seq<ByteCount>)
      requires Valid() && HeapOk(world, h)
      requires forall i :: 0 <= i < |parts| ==> HasType(world, parts[i])
      modifies this, visited
      ensures Valid()
      ensures fixed ==> PartsSized(world, parts, sizes) && size == Total(start, sizes)
      ensures
        var e := WalkAll(world, h, parts, start, old(Entries(visited)), depth);
        !e.cut ==> size == e.size && fixed == e.fixed && Entries(visited) == e.visited
      decreases MAX_DEPTH + 1 - depth, 2
    {
      size, fixed, sizes := start, true, [];
      for i := 0 to |parts|
        invariant Valid()
        invariant fixed ==> PartsSized(world, parts[..i], sizes) && size == Total(start, sizes)
        invariant
          var e := WalkAll(world, h, parts[..i], start, old(Entries(visited)), depth);
          !e.cut ==> size == e.size && fixed == e.fixed && Entries(visited) == e.visited
      {
        WalkAllStep(world, h, parts, i, start, old(Entries(visited)), depth);
        var partSize, partFixed := EstimateValueSize(h, parts[i], true, visited, depth);
        TotalStep(start, sizes, partSize);
        if fixed && partFixed {
          PartsSizedStep(world, parts, i, sizes, partSize);
        }
        size := SafeAdd(size, partSize);
        fixed := fixed && partFixed;
        sizes := sizes + [partSize];
      }
      assert parts[..|parts|] == parts;
    }
  
    /** The shortcuts for common payloads, and the walk for the rest. */
    method EstimatePayloadSize(h: Heap, payload: Payload) returns (size: ByteCount)
      requires Valid() && PayloadOk(world, h, payload)
      modifies this
      ensures Valid()
      ensures !CutShort(world, h, payload) ==> size == PayloadSize(world, h, payload)
    {
      match payload
      case Nothing => size := 0;
      case Bytes(length) => size := length;
      case Primitive(bytes) => size := bytes;
      case Custom(reported) => size := if reported < 0 then 0 else reported;
      case Other(v) =>
        var walked, _ := EstimateValueSize(h, v, false, null, 0);
        size := walked;
    }

    method EstimateQueueDataSize(h: Heap, data: QueueData) returns (size: ByteCount)
      requires Valid() && PayloadOk(world, h, data.payload)
      modifies this
      ensures Valid()
      ensures SizedRight(world, h, data, size)
    {
      size := BASE_DATA_SIZE;
      var payloadSize := EstimatePayloadSize(h, data.payload);
      size := SafeAdd(size, payloadSize);
      size := SafeAdd(size, BASE_EVENT_SIZE);
      size := SafeAdd(size, data.queueName);
      size := SafeAdd(size, data.eventType);
    }
  }

  /**
   The cache is transparent: one estimator sizes any sequence of items, each in the heap of
   its moment, and each size is the one that a walk without a cache finds.
   */
  method EstimateAll(w: World, heaps: seq<Heap>, items: seq<QueueData>) returns (sizes: seq<ByteCount>)
    requires |heaps| == |items| && forall i :: 0 <= i < |items| ==> PayloadOk(w, heaps[i], items[i].payload)
    ensures |sizes| == |items|
    ensures forall i :: 0 <= i < |items| ==> SizedRight(w, heaps[i], items[i], sizes[i])
  {
    var estimator := new Estimator(w);
    sizes := [];
    for i := 0 to |items|
      invariant estimator.Valid() && estimator.world == w && |sizes| == i
      invariant fresh(estimator)
      invariant forall j :: 0 <= j < i ==> SizedRight(w, heaps[j], items[j], sizes[j])
    {
      var size := estimator.EstimateQueueDataSize(heaps[i], items[i]);
      sizes := sizes + [size];
    }
  }
}
