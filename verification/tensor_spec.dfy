/**
 The tensor memory manager as a state machine on values: what every public call does to the
 free lists, the tensor table, the descriptor budget and the statistics.
 */
module TensorSpec {
  import opened Types
  import opened LinkedList
  import opened FreeBlocks
  import opened Alignment

  const MAX_BLOCKS: nat := 4096
  const MAX_TENSORS: nat := 2048
  const REGIONS: nat := 8
  const TENSOR_ALIGN: nat := 64

  datatype Lifetime = ShortTerm | LongTerm | Realtime | Random | Unclassified

  datatype Tensor = Tensor(id: nat, base: nat, size: nat, region: nat, lifetime: Lifetime, refCount: nat)

  /** Counters are kept unbounded; the invariant shows they never leave the range of uint64_t. */
  datatype Stats = Stats(
    total: int, used: int, free: int, tensorCount: int,
    shortTerm: int, longTerm: int, realtime: int, random: int,
    peak: int, allocCount: int, freeCount: int)

  /** `blocksUsed` is block_pool_next: descriptors are handed out once and never recycled. */
  datatype State = State(
    free: seq<seq<Block>>, tensors: seq<Tensor>, nextId: nat, blocksUsed: nat, stats: Stats)

  ghost predicate Shaped(st: State) {
    && |st.free| == REGIONS
    && forall i :: 0 <= i < |st.tensors| ==> st.tensors[i].region < REGIONS
  }

  predicate RangesOverlap(aBase: int, aEnd: int, bBase: int, bEnd: int) {
    aBase < bEnd && bBase < aEnd
  }

  /** allocation_excludes_bootstrap_user_hole */
  predicate ExcludesHole(base: nat, size: nat) {
    size != 0 && base <= U64_MAX - size && !RangesOverlap(base, base + size, USER_BASE, USER_END)
  }

  function Waste(b: Block, a: nat): (w: nat)
    requires a > 0
  {
    (AlignUp32(b.base, a) - b.base) % U64_LIMIT
  }

  /** The test that find_best_fit applies to one block. */
  predicate Feasible(b: Block, size: nat, a: nat)
    requires a > 0
  {
    && b.isFree && b.size >= size
    && b.base <= U64_MAX - (a - 1)
    && Waste(b, a) <= b.size && size <= b.size - Waste(b, a)
    && ExcludesHole(AlignUp32(b.base, a), size)
  }

  /** find_best_fit after its first `n` blocks. */
  function BestUpTo(s: seq<Block>, n: nat, size: nat, a: nat): (best: Option<nat>)
    requires n <= |s| && a > 0
    ensures best.Some? ==> best.value < n && Feasible(s[best.value], size, a)
  {
    if n == 0 then None
    else
      var best := BestUpTo(s, n - 1, size, a);
      var bestSize := if best.Some? then s[best.value].size else U64_MAX;
      if Feasible(s[n - 1], size, a) && s[n - 1].size < bestSize then Some(n - 1) else best
  }

  function BestFit(s: seq<Block>, size: nat, a: nat): (best: Option<nat>)
    requires a > 0
    ensures best.Some? ==> best.value < |s| && Feasible(s[best.value], size, a)
  {
    BestUpTo(s, |s|, size, a)
  }

  function ClassStats(st: Stats, lifetime: Lifetime, delta: int): Stats {
    match lifetime
    case ShortTerm => st.(shortTerm := st.shortTerm + delta)
    case LongTerm => st.(longTerm := st.longTerm + delta)
    case Realtime => st.(realtime := st.realtime + delta)
    case Random => st.(random := st.random + delta)
    case Unclassified => st
  }

  function StatsOnAlloc(st: Stats, t: Tensor): Stats {
    var s1 := ClassStats(st.(used := st.used + t.size, free := st.free - t.size,
                             tensorCount := st.tensorCount + 1, allocCount := st.allocCount + 1),
                         t.lifetime, t.size);
    s1.(peak := if s1.used > s1.peak then s1.used else s1.peak)
  }

  function StatsOnFree(st: Stats, t: Tensor): Stats {
    ClassStats(st.(used := st.used - t.size, free := st.free + t.size,
                   tensorCount := st.tensorCount - 1, freeCount := st.freeCount + 1),
               t.lifetime, -(t.size as int))
  }

  /** How the chosen block is cut: the bytes before the tensor, the tensor, descriptors spent. */
  datatype Cut = Cut(prefix: nat, taken: nat, spent: nat)

  /** None: the prefix needs a descriptor and none is left. */
  function CutOf(b: Block, size: nat, a: nat, blocksUsed: nat): (c: Option<Cut>)
    requires a > 0 && Feasible(b, size, a)
    ensures c.Some? ==>
              && c.value.prefix + c.value.taken <= b.size
              && c.value.prefix == Waste(b, a) && size <= c.value.taken
  {
    var prefix := Waste(b, a);
    if prefix > 0 && blocksUsed >= MAX_BLOCKS then None
    else
      var used := blocksUsed + (if prefix > 0 then 1 else 0);
      var avail := b.size - prefix;
      if avail - size > TENSOR_ALIGN && used < MAX_BLOCKS
      then Some(Cut(prefix, size, used + 1 - blocksUsed))
      else Some(Cut(prefix, avail, used - blocksUsed))
  }

  datatype AllocResult = AllocResult(state: State, status: Status, tensor: Option<Tensor>)

  function Max(x: nat, y: nat): nat { if x < y then y else x }

  /** tensor_alloc_aligned_profiled */
  function Alloc(st: State, size: U64, alignment: U32, region: U32, lifetime: Lifetime): (r: AllocResult)
    requires Shaped(st)
    ensures Shaped(r.state) && (r.status == Ok <==> r.tensor.Some?)
  {
    var a := Max(alignment, TENSOR_ALIGN);
    if size == 0 || region >= REGIONS then AllocResult(st, Inval, None)
    else if |st.tensors| >= MAX_TENSORS then AllocResult(st, NoMem, None)
    else if !IsPow2(a) then AllocResult(st, Inval, None)
    else if size > U64_MAX - (a - 1) then AllocResult(st, Overflow, None)
    else
      var rounded := AlignUp32(size, a);
      if rounded == 0 then AllocResult(st, Overflow, None)
      else match BestFit(st.free[region], rounded, a)
        case None => AllocResult(st, NoMem, None)
        case Some(k) =>
          var b := st.free[region][k];
          match CutOf(b, rounded, a, st.blocksUsed)
          case None => AllocResult(st, NoMem, None)
          case Some(cut) => Taken(st, region, k, cut, lifetime)
  }

  /** The allocation proper: block `k` of the region is cut and the tensor recorded. */
  function Taken(st: State, region: nat, k: nat, cut: Cut, lifetime: Lifetime): (r: AllocResult)
    requires Shaped(st) && region < REGIONS && k < |st.free[region]|
    requires cut.prefix + cut.taken <= st.free[region][k].size
    ensures Shaped(r.state)
  {
    var b := st.free[region][k];
    var t := Tensor(st.nextId, b.base + cut.prefix, cut.taken, region, lifetime, 1);
    AllocResult(
      State(st.free[region := Carve(st.free[region], k, cut.prefix, cut.taken)],
            st.tensors + [t], (st.nextId + 1) % U32_LIMIT, st.blocksUsed + cut.spent,
            StatsOnAlloc(st.stats, t)),
      Ok, Some(t))
  }

  /** find_tensor */
  function FindTensor(ts: seq<Tensor>, id: nat): (i: Option<nat>)
    ensures i.Some? ==> i.value < |ts| && ts[i.value].id == id
    ensures i.Some? ==> forall j :: 0 <= j < i.value ==> ts[j].id != id
    ensures i.None? ==> forall j :: 0 <= j < |ts| ==> ts[j].id != id
  {
    if ts == [] then None
    else if ts[0].id == id then Some(0)
    else match FindTensor(ts[1..], id)
      case None => assert forall j :: 1 <= j < |ts| ==> ts[j] == ts[1..][j - 1]; None
      case Some(i) => assert forall j :: 1 <= j < i + 1 ==> ts[j] == ts[1..][j - 1]; Some(i + 1)
  }

  /** Deletion from the tensor table: the last record moves into the hole. */
  function SwapRemove(ts: seq<Tensor>, i: nat): (r: seq<Tensor>)
    requires i < |ts|
    ensures |r| == |ts| - 1
  {
    ts[i := ts[|ts| - 1]][..|ts| - 1]
  }

  function BlockOf(t: Tensor): Block { Block(t.base, t.size, true) }

  function SetRef(st: State, i: nat, n: nat): (st': State)
    requires Shaped(st) && i < |st.tensors|
    ensures Shaped(st')
  {
    st.(tensors := st.tensors[i := st.tensors[i].(refCount := n)])
  }

  /** The part of tensor_free that returns the memory. */
  function Released(st: State, i: nat): (st': State)
    requires Shaped(st) && i < |st.tensors|
    ensures Shaped(st')
  {
    var t := st.tensors[i];
    State(st.free[t.region := GiveBack(st.free[t.region], BlockOf(t))],
          SwapRemove(st.tensors, i), st.nextId, st.blocksUsed + 1, StatsOnFree(st.stats, t))
  }

  /** tensor_free */
  function Free(st: State, id: nat): (r: (State, Status))
    requires Shaped(st)
    ensures Shaped(r.0)
  {
    match FindTensor(st.tensors, id)
    case None => (st, Inval)
    case Some(i) =>
      var t := st.tensors[i];
      if t.refCount > 1 then (SetRef(st, i, t.refCount - 1), Ok)
      else if st.blocksUsed >= MAX_BLOCKS then (st, NoMem)
      else (Released(st, i), Ok)
  }

  /** tensor_ref */
  function Ref(st: State, id: nat): (r: (State, Status))
    requires Shaped(st)
    ensures Shaped(r.0)
  {
    match FindTensor(st.tensors, id)
    case None => (st, Inval)
    case Some(i) => (SetRef(st, i, (st.tensors[i].refCount + 1) % U32_LIMIT), Ok)
  }

  /** tensor_unref: the count reaches zero before the memory is returned. */
  function Unref(st: State, id: nat): (r: (State, Status))
    requires Shaped(st)
    ensures Shaped(r.0)
  {
    match FindTensor(st.tensors, id)
    case None => (st, Inval)
    case Some(i) =>
      if st.tensors[i].refCount == 0 then (st, Inval)
      else
        var st' := SetRef(st, i, st.tensors[i].refCount - 1);
        if st'.tensors[i].refCount == 0 then Free(st', id) else (st', Ok)
  }

  datatype Op =
    | AllocOp(size: U64, alignment: U32, region: U32, lifetime: Lifetime)
    | FreeOp(id: U32)
    | RefOp(id: U32)
    | UnrefOp(id: U32)

  function Step(st: State, op: Op): (st': State)
    requires Shaped(st)
    ensures Shaped(st')
  {
    match op
    case AllocOp(size, alignment, region, lifetime) => Alloc(st, size, alignment, region, lifetime).state
    case FreeOp(id) => Free(st, id).0
    case RefOp(id) => Ref(st, id).0
    case UnrefOp(id) => Unref(st, id).0
  }

  /** The state after a whole sequence of calls. */
  function Run(st: State, ops: seq<Op>): (st': State)
    requires Shaped(st)
    ensures Shaped(st')
  {
    if ops == [] then st else Step(Run(st, ops[..|ops| - 1]), ops[|ops| - 1])
  }
}
