/** The promises of the tensor memory manager, over every run. */
module TensorTheorems {
  import opened Types
  import opened LinkedList
  import opened FreeBlocks
  import opened Alignment
  import opened TensorSpec
  import opened TensorProofs

  // ---------- every run keeps the tiling ----------

  lemma AllocKeepsInv(st: State, pools: seq<seq<Block>>, size: U64, alignment: U32, region: U32, lifetime: Lifetime)
    requires Inv(st, pools)
    ensures Inv(Alloc(st, size, alignment, region, lifetime).state, pools)
  {
    hide Inv, BestFit, IsPow2;
    InvFacts(st, pools);
    var a := Max(alignment, TENSOR_ALIGN);
    var res := Alloc(st, size, alignment, region, lifetime);
    if res.status == Ok {
      var rounded := AlignUp32(size, a);
      var k := BestFit(st.free[region], rounded, a).value;
      var cut := CutOf(st.free[region][k], rounded, a, st.blocksUsed).value;
      TakenKeepsInv(st, pools, region, k, cut, lifetime);
    }
  }

  lemma FreeKeepsInv(st: State, pools: seq<seq<Block>>, id: nat)
    requires Inv(st, pools)
    ensures Inv(Free(st, id).0, pools)
  {
    hide Inv;
    InvFacts(st, pools);
    var found := FindTensor(st.tensors, id);
    if found.Some? {
      var i := found.value;
      var n := st.tensors[i].refCount;
      if n > 1 {
        SetRefKeepsInv(st, pools, i, n - 1);
      } else if st.blocksUsed < MAX_BLOCKS {
        ReleasedKeepsInv(st, pools, i);
      }
    }
  }

  lemma RefKeepsInv(st: State, pools: seq<seq<Block>>, id: nat)
    requires Inv(st, pools)
    ensures Inv(Ref(st, id).0, pools)
  {
    hide Inv;
    InvFacts(st, pools);
    var found := FindTensor(st.tensors, id);
    if found.Some? {
      var n := (st.tensors[found.value].refCount + 1) % U32_LIMIT;
      SetRefKeepsInv(st, pools, found.value, n);
    }
  }

  lemma UnrefKeepsInv(st: State, pools: seq<seq<Block>>, id: nat)
    requires Inv(st, pools)
    ensures Inv(Unref(st, id).0, pools)
  {
    hide Inv;
    InvFacts(st, pools);
    var found := FindTensor(st.tensors, id);
    if found.Some? && st.tensors[found.value].refCount > 0 {
      var n := st.tensors[found.value].refCount - 1;
      SetRefKeepsInv(st, pools, found.value, n);
      FreeKeepsInv(SetRef(st, found.value, n), pools, id);
    }
  }

  /** Every run of alloc, free, ref and unref, in any order and with any arguments. */
  lemma {:induction false} RunKeepsInv(st: State, pools: seq<seq<Block>>, ops: seq<Op>)
    requires Inv(st, pools)
    ensures Inv(Run(st, ops), pools)
  {
    if ops != [] {
      var before := ops[..|ops| - 1];
      RunKeepsInv(st, pools, before);
      match ops[|ops| - 1]
      case AllocOp(size, alignment, region, lifetime) =>
        AllocKeepsInv(Run(st, before), pools, size, alignment, region, lifetime);
      case FreeOp(id) => FreeKeepsInv(Run(st, before), pools, id);
      case RefOp(id) => RefKeepsInv(Run(st, before), pools, id);
      case UnrefOp(id) => UnrefKeepsInv(Run(st, before), pools, id);
    }
  }

  // ---------- the bootstrap user hole ----------

  /** free_lists_exclude_bootstrap_user_hole */
  ghost predicate FreeListsExclude(free: seq<seq<Block>>) {
    forall r, k :: 0 <= r < |free| && 0 <= k < |free[r]| ==> ExcludesHole(free[r][k].base, free[r][k].size)
  }

  /** active_tensors_exclude_bootstrap_user_hole */
  ghost predicate TensorsExclude(ts: seq<Tensor>) {
    forall i :: 0 <= i < |ts| ==> ExcludesHole(ts[i].base, ts[i].size)
  }

  lemma TensorBounds(st: State, pools: seq<seq<Block>>, i: nat)
    requires Inv(st, pools) && i < |st.tensors|
    ensures var t := st.tensors[i];
            && t.base + t.size <= ADDRESS_LIMIT
            && (t.base + t.size <= USER_BASE || USER_END <= t.base)
  {
    var t := st.tensors[i];
    assert PoolOk(pools[t.region]) && RegionOk(pools[t.region], st.free[t.region], st.tensors, t.region);
    HeldAt(st.tensors, i, t.region, t.base + t.size - 1);
    assert Covers(pools[t.region], t.base + t.size - 1);
    if t.base < USER_END && USER_BASE < t.base + t.size {
      HeldAt(st.tensors, i, t.region, Max(t.base, USER_BASE));
      assert false;
    }
  }

  /** The live exclusion check never fails, whatever was allocated and freed. */
  lemma RangeStaysExcluded(st: State, pools: seq<seq<Block>>)
    requires Inv(st, pools)
    ensures FreeListsExclude(st.free) && TensorsExclude(st.tensors)
  {
    forall r, k | 0 <= r < |st.free| && 0 <= k < |st.free[r]|
      ensures ExcludesHole(st.free[r][k].base, st.free[r][k].size)
    {
      BlockBounds(st, pools, r, k);
      assert RegionOk(pools[r], st.free[r], st.tensors, r);
    }
    forall i | 0 <= i < |st.tensors| ensures ExcludesHole(st.tensors[i].base, st.tensors[i].size) {
      TensorBounds(st, pools, i);
    }
  }

  lemma TensorInPool(st: State, pools: seq<seq<Block>>, i: nat, x: int)
    requires Inv(st, pools) && i < |st.tensors| && Owns(st.tensors[i], st.tensors[i].region, x)
    ensures Covers(pools[st.tensors[i].region], x)
  {
    var r := st.tensors[i].region;
    HeldAt(st.tensors, i, r, x);
    assert RegionOk(pools[r], st.free[r], st.tensors, r);
  }

  /** Live tensors never share an address, even across regions. */
  lemma TensorsApart(st: State, pools: seq<seq<Block>>, i: nat, j: nat)
    requires Inv(st, pools) && i < j < |st.tensors|
    ensures DisjointTensors(st.tensors[i], st.tensors[j])
  {
    var t, u := st.tensors[i], st.tensors[j];
    if t.region != u.region && !DisjointTensors(t, u) {
      var x := Max(t.base, u.base);
      TensorInPool(st, pools, i, x);
      TensorInPool(st, pools, j, x);
      assert false;
    }
  }

  // ---------- best fit ----------

  /** The search returns the first of the smallest feasible blocks, and fails only if there is none. */
  lemma {:induction false} BestUpToSmallest(s: seq<Block>, n: nat, size: nat, a: nat)
    requires n <= |s| && a > 0
    ensures var best := BestUpTo(s, n, size, a);
            && (best.None? ==> forall i :: 0 <= i < n && Feasible(s[i], size, a) ==> s[i].size >= U64_MAX)
            && (best.Some? ==>
                  && s[best.value].size < U64_MAX
                  && forall i :: 0 <= i < n && Feasible(s[i], size, a) ==>
                       s[best.value].size <= s[i].size && (i < best.value ==> s[best.value].size < s[i].size))
  {
    if n > 0 {
      BestUpToSmallest(s, n - 1, size, a);
    }
  }

  /** Addresses [q, q + n) are all free. */
  ghost predicate FreeRun(s: seq<Block>, q: nat, n: nat) {
    forall x: int :: q <= x < q + n ==> Covers(s, x)
  }

  ghost predicate AlignedRun(s: seq<Block>, q: nat, n: nat, a: nat)
    requires a > 0
  {
    q % a == 0 && FreeRun(s, q, n)
  }

  lemma FeasibleMeansRun(st: State, pools: seq<seq<Block>>, r: nat, k: nat, size: nat, a: nat)
    requires Inv(st, pools) && r < REGIONS && k < |st.free[r]| && IsPow2(a) && a < U32_LIMIT
    requires Feasible(st.free[r][k], size, a)
    ensures AlignedRun(st.free[r], AlignUp32(st.free[r][k].base, a), size, a)
  {
    var b := st.free[r][k];
    WasteExact(st, pools, r, k, a);
    AlignUpLeast(b.base, a, 0);
    forall x: int | AlignUp(b.base, a) <= x < AlignUp(b.base, a) + size ensures Covers(st.free[r], x) {
      CoversAt(st.free[r], k, x);
    }
  }

  lemma RunMeansFeasible(st: State, pools: seq<seq<Block>>, r: nat, q: nat, size: nat, a: nat) returns (k: nat)
    requires Inv(st, pools) && r < REGIONS && IsPow2(a) && a < U32_LIMIT && size > 0
    requires AlignedRun(st.free[r], q, size, a)
    ensures k < |st.free[r]| && Feasible(st.free[r][k], size, a) && st.free[r][k].size < U64_MAX
  {
    assert RegionOk(pools[r], st.free[r], st.tensors, r);
    k := RunInsideOneBlock(st.free[r], q, size);
    WasteExact(st, pools, r, k, a);
    BlockBounds(st, pools, r, k);
    AlignUpLeast(st.free[r][k].base, a, q);
  }

  /**
   Completeness of the search: it succeeds exactly when the region has an aligned run of free
   addresses of that size anywhere, block boundaries notwithstanding.
   */
  lemma BestFitComplete(st: State, pools: seq<seq<Block>>, r: nat, size: nat, a: nat)
    requires Inv(st, pools) && r < REGIONS && IsPow2(a) && a < U32_LIMIT && size > 0
    ensures BestFit(st.free[r], size, a).Some? <==> exists q: nat :: AlignedRun(st.free[r], q, size, a)
  {
    var best := BestFit(st.free[r], size, a);
    if best.Some? {
      FeasibleMeansRun(st, pools, r, best.value, size, a);
    }
    if exists q: nat :: AlignedRun(st.free[r], q, size, a) {
      var q: nat :| AlignedRun(st.free[r], q, size, a);
      var k := RunMeansFeasible(st, pools, r, q, size, a);
      BestUpToSmallest(st.free[r], |st.free[r]|, size, a);
    }
  }

  // ---------- what an allocation returns ----------

  /** The arguments pass every check that precedes the search. */
  predicate Admissible(st: State, size: U64, alignment: U32, region: U32) {
    var a := Max(alignment, TENSOR_ALIGN);
    && size > 0 && region < REGIONS && |st.tensors| < MAX_TENSORS
    && IsPow2(a) && size <= U64_MAX - (a - 1) && AlignUp32(size, a) > 0
  }

  /** An admissible request fails exactly for want of an aligned run or of a descriptor for the prefix. */
  lemma AllocOkIff(st: State, pools: seq<seq<Block>>, size: U64, alignment: U32, region: U32, lifetime: Lifetime)
    requires Inv(st, pools) && Admissible(st, size, alignment, region)
    ensures var a := Max(alignment, TENSOR_ALIGN);
            var res := Alloc(st, size, alignment, region, lifetime);
            var n := AlignUp32(size, a);
            && (res.status == Ok || (res.status == NoMem && res.state == st))
            && (res.status == NoMem <==>
                  || (!exists q: nat :: AlignedRun(st.free[region], q, n, a))
                  || (&& BestFit(st.free[region], n, a).Some?
                      && st.free[region][BestFit(st.free[region], n, a).value].base % a != 0
                      && st.blocksUsed == MAX_BLOCKS))
  {
    hide Inv, AlignedRun, BestFit, AlignUp32, IsPow2, Feasible, Waste, Taken;
    var a := Max(alignment, TENSOR_ALIGN);
    var n := AlignUp32(size, a);
    InvFacts(st, pools);
    BestFitComplete(st, pools, region, n, a);
    var best := BestFit(st.free[region], n, a);
    if best.Some? {
      var b := st.free[region][best.value];
      WasteIff(st, pools, region, best.value, a);
      TakenIsOk(st, region, best.value, n, a, lifetime);
    }
  }

  /** A prefix is cut off exactly below a block that does not start aligned. */
  lemma WasteIff(st: State, pools: seq<seq<Block>>, r: nat, k: nat, a: nat)
    requires Inv(st, pools) && r < REGIONS && k < |st.free[r]| && IsPow2(a) && 0 < a < U32_LIMIT
    ensures Waste(st.free[r][k], a) > 0 <==> st.free[r][k].base % a != 0
  {
    hide Inv, IsPow2, AlignUp, AlignUp32, Waste;
    InvFacts(st, pools);
    var b := st.free[r][k];
    WasteExact(st, pools, r, k, a);
    AlignUpLeast(b.base, a, b.base);
  }

  lemma TakenIsOk(st: State, region: nat, k: nat, n: nat, a: nat, lifetime: Lifetime)
    requires Shaped(st) && region < REGIONS && k < |st.free[region]| && a > 0 && Feasible(st.free[region][k], n, a)
    ensures var c := CutOf(st.free[region][k], n, a, st.blocksUsed);
            && (c.None? <==> Waste(st.free[region][k], a) > 0 && st.blocksUsed >= MAX_BLOCKS)
            && (c.Some? ==> Taken(st, region, k, c.value, lifetime).status == Ok)
  {
    hide Shaped, Waste, Carve, StatsOnAlloc;
  }

  /** A request that is not admissible is refused and changes nothing; the reason depends on the arguments alone, or on a full table. */
  lemma AllocRefused(st: State, size: U64, alignment: U32, region: U32, lifetime: Lifetime)
    requires Shaped(st) && !Admissible(st, size, alignment, region)
    ensures var res := Alloc(st, size, alignment, region, lifetime);
            && res.state == st
            && res.status == (if size == 0 || region >= REGIONS then Inval
                              else if |st.tensors| >= MAX_TENSORS then NoMem
                              else if IsPow2(Max(alignment, TENSOR_ALIGN)) then Overflow else Inval)
  {
    hide Shaped;
  }

  /** The peak is the highest use so far. */
  ghost predicate PeakFollows(st: Stats, st': Stats) {
    st'.peak == if st'.used > st.peak then st'.used else st.peak
  }

  lemma PeakMeans(st: State, pools: seq<seq<Block>>, op: Op)
    requires Inv(st, pools)
    ensures Shaped(st) && PeakFollows(st.stats, Step(st, op).stats)
  {
    hide Inv, Alloc, Free, Unref, Ref, Shaped, PeakFollows;
    InvFacts(st, pools);
    UsedBelowPeak(st, pools);
    PeakStays(st.stats);
    match op
    case AllocOp(size, alignment, region, lifetime) => PeakOnAlloc(st, size, alignment, region, lifetime);
    case FreeOp(id) => PeakOnFree(st, id);
    case RefOp(id) => RefStats(st, id);
    case UnrefOp(id) => PeakOnUnref(st, id);
  }

  lemma UsedBelowPeak(st: State, pools: seq<seq<Block>>)
    requires Inv(st, pools)
    ensures st.stats.used <= st.stats.peak
  {
  }

  lemma RefStats(st: State, id: nat)
    requires Shaped(st)
    ensures Ref(st, id).0.stats == st.stats
  {
    hide Shaped;
  }

  lemma PeakOnAlloc(st: State, size: U64, alignment: U32, region: U32, lifetime: Lifetime)
    requires Shaped(st) && st.stats.used <= st.stats.peak
    ensures PeakFollows(st.stats, Alloc(st, size, alignment, region, lifetime).state.stats)
  {
    hide StatsOnAlloc, Carve, CutOf, BestFit, AlignUp32, IsPow2, PeakFollows;
    PeakStays(st.stats);
    if Alloc(st, size, alignment, region, lifetime).status == Ok {
      var k, cut := AllocIsTaken(st, size, alignment, region, lifetime);
      PeakOnTake(st, region, k, cut, lifetime);
    }
  }

  lemma PeakOnFree(st: State, id: nat)
    requires Shaped(st) && st.stats.used <= st.stats.peak
    ensures PeakFollows(st.stats, Free(st, id).0.stats)
  {
    hide Released, Shaped, PeakFollows;
    PeakStays(st.stats);
    var found := FindTensor(st.tensors, id);
    if found.Some? {
      PeakOnRelease(st, found.value);
    }
  }

  lemma PeakOnUnref(st: State, id: nat)
    requires Shaped(st) && st.stats.used <= st.stats.peak
    ensures PeakFollows(st.stats, Unref(st, id).0.stats)
  {
    hide Free, Shaped, PeakFollows;
    PeakStays(st.stats);
    var found := FindTensor(st.tensors, id);
    if found.Some? && st.tensors[found.value].refCount > 0 {
      PeakOnFree(SetRef(st, found.value, st.tensors[found.value].refCount - 1), id);
    }
  }

  lemma PeakStays(st: Stats)
    requires st.used <= st.peak
    ensures PeakFollows(st, st)
  {
  }

  lemma PeakOnTake(st: State, region: nat, k: nat, cut: Cut, lifetime: Lifetime)
    requires Shaped(st) && region < REGIONS && k < |st.free[region]| && cut.prefix + cut.taken <= st.free[region][k].size
    ensures PeakFollows(st.stats, Taken(st, region, k, cut, lifetime).state.stats)
  {
    hide Carve, Shaped;
  }

  lemma PeakOnRelease(st: State, i: nat)
    requires Shaped(st) && i < |st.tensors| && st.stats.used <= st.stats.peak
    ensures PeakFollows(st.stats, Released(st, i).stats)
  {
    hide GiveBack, Shaped;
  }

  /**
   References: one more by ref, one less by free and unref while others are left; no other record, no memory and no
   counter changes. A tensor that does not exist is refused.
   */
  lemma ReferencesMean(st: State, pools: seq<seq<Block>>, id: nat)
    requires Inv(st, pools)
    ensures (forall i :: 0 <= i < |st.tensors| ==> st.tensors[i].id != id) ==>
              Ref(st, id) == (st, Inval) && Free(st, id) == (st, Inval) && Unref(st, id) == (st, Inval)
    ensures forall i :: 0 <= i < |st.tensors| && st.tensors[i].id == id ==>
              var t := st.tensors[i]; var n := t.refCount;
              && Ref(st, id) == (st.(tensors := st.tensors[i := t.(refCount := (n + 1) % U32_LIMIT)]), Ok)
              && (n > 1 ==> Free(st, id) == (st.(tensors := st.tensors[i := t.(refCount := n - 1)]), Ok) && Unref(st, id) == Free(st, id))
              && (n == 0 ==> Unref(st, id) == (st, Inval))
  {
    hide Shaped, RegionOk, StatsOk, PoolsOk, Released;
    var found := FindTensor(st.tensors, id);
    assert TensorsOk(st.tensors, st.nextId);
  }

  /** Where an allocation comes from: a cut of the block the search chose. */
  lemma AllocIsTaken(st: State, size: U64, alignment: U32, region: U32, lifetime: Lifetime) returns (k: nat, cut: Cut)
    requires Shaped(st) && Alloc(st, size, alignment, region, lifetime).status == Ok
    ensures var a := Max(alignment, TENSOR_ALIGN);
            && Admissible(st, size, alignment, region)
            && k < |st.free[region]|
            && BestFit(st.free[region], AlignUp32(size, a), a) == Some(k)
            && Feasible(st.free[region][k], AlignUp32(size, a), a)
            && CutOf(st.free[region][k], AlignUp32(size, a), a, st.blocksUsed) == Some(cut)
            && Alloc(st, size, alignment, region, lifetime) == Taken(st, region, k, cut, lifetime)
  {
    var a := Max(alignment, TENSOR_ALIGN);
    k := BestFit(st.free[region], AlignUp32(size, a), a).value;
    cut := CutOf(st.free[region][k], AlignUp32(size, a), a, st.blocksUsed).value;
  }

  /** A tensor of at most 2 GiB covers the request exactly when rounding did not truncate it. */
  lemma RequestCovered(size: U64, a: nat, taken: nat)
    requires 0 < a <= 0x8000_0000 && AlignUp32(size, a) <= taken <= ADDRESS_LIMIT
    ensures size <= taken <==> size + a - 1 < U32_LIMIT
  {
    if size + a - 1 < U32_LIMIT {
      AlignUp32Exact(size, a);
      AlignUpLeast(size, a, 0);
    }
  }

  lemma CutShape(st: State, pools: seq<seq<Block>>, r: nat, k: nat, n: nat, a: nat, cut: Cut)
    requires Inv(st, pools) && r < REGIONS && k < |st.free[r]| && IsPow2(a) && a < U32_LIMIT
    requires Feasible(st.free[r][k], n, a) && CutOf(st.free[r][k], n, a, st.blocksUsed) == Some(cut)
    ensures (st.free[r][k].base + cut.prefix) % a == 0
    ensures n <= cut.taken <= ADDRESS_LIMIT
    ensures FreeRun(st.free[r], st.free[r][k].base + cut.prefix, cut.taken)
  {
    var b := st.free[r][k];
    WasteExact(st, pools, r, k, a);
    AlignUpLeast(b.base, a, 0);
    BlockBounds(st, pools, r, k);
    forall x: int | b.base + cut.prefix <= x < b.base + cut.prefix + cut.taken ensures Covers(st.free[r], x) {
      CoversAt(st.free[r], k, x);
    }
  }

  /** What lies around a cut: nothing is kept below an aligned start, and whatever exceeds the request could not be cut off. */
  lemma CutTight(st: State, pools: seq<seq<Block>>, r: nat, k: nat, n: nat, a: nat, cut: Cut)
    requires Inv(st, pools) && r < REGIONS && k < |st.free[r]| && IsPow2(a) && a < U32_LIMIT
    requires Feasible(st.free[r][k], n, a) && CutOf(st.free[r][k], n, a, st.blocksUsed) == Some(cut)
    ensures cut.taken > n ==> cut.taken <= n + TENSOR_ALIGN || st.blocksUsed + cut.spent == MAX_BLOCKS
    ensures cut.taken > n ==> !Covers(st.free[r], st.free[r][k].base + cut.prefix + cut.taken)
    ensures cut.prefix < a && !Covers(st.free[r], st.free[r][k].base - 1)
    ensures cut.prefix + cut.taken <= st.free[r][k].size
  {
    hide Inv, Feasible, Waste;
    InvFacts(st, pools);
    var b := st.free[r][k];
    RegionNormal(st, pools, r);
    WasteExact(st, pools, r, k, a);
    AlignUpLeast(b.base, a, 0);
    EdgesTaken(st.free[r], k);
  }

  lemma RegionNormal(st: State, pools: seq<seq<Block>>, r: nat)
    requires Inv(st, pools) && r < REGIONS
    ensures Normal(st.free[r]) && st.blocksUsed <= MAX_BLOCKS
  {
    assert RegionOk(pools[r], st.free[r], st.tensors, r);
  }

  /** The addresses next to a free block are not free. */
  lemma EdgesTaken(s: seq<Block>, k: nat)
    requires Normal(s) && k < |s|
    ensures !Covers(s, s[k].base - 1) && !Covers(s, End(s[k]))
  {
    forall j | 0 <= j < |s| ensures !Inside(s[j], s[k].base - 1) && !Inside(s[j], End(s[k])) {
      if j < k {
        assert Gap(s[j], s[k]);
      } else if k < j {
        assert Gap(s[k], s[j]);
      }
    }
  }

  /** `n` bytes fit into the block at an aligned address. */
  ghost predicate Holds(b: Block, n: nat, a: nat)
    requires a > 0
  {
    exists q: nat :: b.base <= q && q + n <= End(b) && q % a == 0
  }

  lemma HoldsFeasible(st: State, pools: seq<seq<Block>>, r: nat, j: nat, n: nat, a: nat)
    requires Inv(st, pools) && r < REGIONS && j < |st.free[r]| && IsPow2(a) && a < U32_LIMIT && n > 0
    requires Holds(st.free[r][j], n, a)
    ensures Feasible(st.free[r][j], n, a)
  {
    var b := st.free[r][j];
    var q: nat :| b.base <= q && q + n <= End(b) && q % a == 0;
    RegionNormal(st, pools, r);
    WasteExact(st, pools, r, j, a);
    BlockBounds(st, pools, r, j);
    AlignUpLeast(b.base, a, q);
  }

  /** The block an allocation is cut from: the first of the smallest that can hold it. */
  ghost predicate SmallestHolder(s: seq<Block>, k: nat, n: nat, a: nat)
    requires a > 0
  {
    && k < |s| && Holds(s[k], n, a)
    && forall j :: 0 <= j < |s| && Holds(s[j], n, a) ==> s[k].size <= s[j].size && (j < k ==> s[k].size < s[j].size)
  }

  lemma ChosenIsSmallest(st: State, pools: seq<seq<Block>>, r: nat, k: nat, n: nat, a: nat)
    requires Inv(st, pools) && r < REGIONS && IsPow2(a) && a < U32_LIMIT && n > 0 && BestFit(st.free[r], n, a) == Some(k)
    ensures SmallestHolder(st.free[r], k, n, a)
  {
    hide Inv, Feasible, Holds;
    InvFacts(st, pools);
    var s := st.free[r];
    assert Holds(s[k], n, a) by {
      FeasibleHolds(st, pools, r, k, n, a);
    }
    BestUpToSmallest(s, |s|, n, a);
    forall j | 0 <= j < |s| && Holds(s[j], n, a) ensures Feasible(s[j], n, a) {
      HoldsFeasible(st, pools, r, j, n, a);
    }
  }

  lemma FeasibleHolds(st: State, pools: seq<seq<Block>>, r: nat, k: nat, n: nat, a: nat)
    requires Inv(st, pools) && r < REGIONS && k < |st.free[r]| && IsPow2(a) && a < U32_LIMIT
    requires Feasible(st.free[r][k], n, a)
    ensures Holds(st.free[r][k], n, a)
  {
    hide Inv;
    InvFacts(st, pools);
    WasteExact(st, pools, r, k, a);
    AlignUpLeast(st.free[r][k].base, a, 0);
    assert AlignUp(st.free[r][k].base, a) % a == 0;
  }

  /**
   A returned tensor is aligned, was free, and is at least the rounded request. It is as large
   as requested if and only if the rounded request stays below 4 GiB. It is larger than the rounded
   request by at most 64 bytes, unless no descriptor is left, and then it ends where the free memory ends.
   */
  lemma AllocatedTensor(st: State, pools: seq<seq<Block>>, size: U64, alignment: U32, region: U32, lifetime: Lifetime)
    requires Inv(st, pools) && Alloc(st, size, alignment, region, lifetime).status == Ok
    ensures var a := Max(alignment, TENSOR_ALIGN);
            var n := AlignUp32(size, a);
            var res := Alloc(st, size, alignment, region, lifetime);
            var t := res.tensor.value;
            && region < REGIONS && t.region == region && t.refCount == 1 && t.lifetime == lifetime && t.id == st.nextId
            && t.base % a == 0
            && n <= t.size
            && (t.size > n ==> t.size <= n + TENSOR_ALIGN || res.state.blocksUsed == MAX_BLOCKS)
            && (t.size > n ==> !Covers(st.free[region], t.base + t.size))
            && FreeRun(st.free[region], t.base, t.size)
            && (size <= t.size <==> size + a - 1 < U32_LIMIT)
  {
    hide Inv, IsPow2, Feasible, CutOf, BestFit, AlignUp32, FreeRun;
    var a := Max(alignment, TENSOR_ALIGN);
    InvFacts(st, pools);
    var k, cut := AllocIsTaken(st, size, alignment, region, lifetime);
    CutShape(st, pools, region, k, AlignUp32(size, a), a, cut);
    CutTight(st, pools, region, k, AlignUp32(size, a), a, cut);
    Pow2Limit(a);
    RequestCovered(size, a, cut.taken);
  }

  /**
   Where it is put: in the first of the smallest blocks that can hold the rounded request, at the lowest aligned
   address of that block, of which it leaves less than one alignment unit below it.
   */
  lemma AllocatedPlace(st: State, pools: seq<seq<Block>>, size: U64, alignment: U32, region: U32, lifetime: Lifetime) returns (k: nat)
    requires Inv(st, pools) && Alloc(st, size, alignment, region, lifetime).status == Ok
    ensures var a := Max(alignment, TENSOR_ALIGN);
            var t := Alloc(st, size, alignment, region, lifetime).tensor.value;
            && region < REGIONS && SmallestHolder(st.free[region], k, AlignUp32(size, a), a)
            && st.free[region][k].base <= t.base < st.free[region][k].base + a
            && t.base + t.size <= End(st.free[region][k])
  {
    hide Inv, IsPow2, Feasible, CutOf, BestFit, AlignUp32, SmallestHolder;
    var a := Max(alignment, TENSOR_ALIGN);
    InvFacts(st, pools);
    var i, cut := AllocIsTaken(st, size, alignment, region, lifetime);
    k := i;
    CutTight(st, pools, region, k, AlignUp32(size, a), a, cut);
    ChosenIsSmallest(st, pools, region, k, AlignUp32(size, a), a);
  }

  lemma TruncatedSum(y: nat)
    requires y < U32_LIMIT
    ensures (y + U32_LIMIT) % U64_LIMIT % U32_LIMIT == y % U64_LIMIT % U32_LIMIT
  {
  }

  /** The request lost to the 32-bit mask: 4 GiB more is granted exactly the same small tensor. */
  lemma OversizedTwin(st: State, size: U64, alignment: U32, region: U32, lifetime: Lifetime)
    requires Shaped(st) && 0 < size
    requires size + Max(alignment, TENSOR_ALIGN) - 1 < U32_LIMIT
    ensures Alloc(st, size + U32_LIMIT, alignment, region, lifetime) == Alloc(st, size, alignment, region, lifetime)
  {
    var a := Max(alignment, TENSOR_ALIGN);
    assert AlignUp32(size + U32_LIMIT, a) == AlignUp32(size, a) by {
      TruncatedSum(size + a - 1);
      assert size + U32_LIMIT + a - 1 == size + a - 1 + U32_LIMIT;
    }
  }

  // ---------- history independence ----------

  /** The free lists depend only on which addresses are live, not on how they came to be. */
  lemma SameLiveSameFree(st: State, st': State, pools: seq<seq<Block>>)
    requires Inv(st, pools) && Inv(st', pools)
    requires forall r: nat, x: int :: Held(st.tensors, r, x) <==> Held(st'.tensors, r, x)
    ensures st.free == st'.free
  {
    forall r | 0 <= r < REGIONS ensures st.free[r] == st'.free[r] {
      assert RegionOk(pools[r], st.free[r], st.tensors, r) && RegionOk(pools[r], st'.free[r], st'.tensors, r);
      forall x: int ensures Covers(st.free[r], x) <==> Covers(st'.free[r], x) {
        assert Held(st.tensors, r, x) <==> Held(st'.tensors, r, x);
      }
      NormalUnique(st.free[r], st'.free[r]);
    }
  }

  /** The live extents as a set: which region, where, how long. */
  function Extents(ts: seq<Tensor>): set<(nat, nat, nat)> {
    set i | 0 <= i < |ts| :: (ts[i].region, ts[i].base, ts[i].size)
  }

  lemma ExtentsDecide(ts: seq<Tensor>, us: seq<Tensor>, r: nat, x: int)
    requires Extents(ts) <= Extents(us) && Held(ts, r, x)
    ensures Held(us, r, x)
  {
    var i :| 0 <= i < |ts| && Owns(ts[i], r, x);
    assert (ts[i].region, ts[i].base, ts[i].size) in Extents(us);
    var j :| 0 <= j < |us| && (us[j].region, us[j].base, us[j].size) == (ts[i].region, ts[i].base, ts[i].size);
    HeldAt(us, j, r, x);
  }

  /** Two runs from one state that end with the same live extents end with identical free lists. */
  lemma HistoryIndependent(st: State, pools: seq<seq<Block>>, ops: seq<Op>, ops': seq<Op>)
    requires Inv(st, pools)
    requires Extents(Run(st, ops).tensors) == Extents(Run(st, ops').tensors)
    ensures Run(st, ops).free == Run(st, ops').free
  {
    var s1, s2 := Run(st, ops), Run(st, ops');
    RunKeepsInv(st, pools, ops);
    RunKeepsInv(st, pools, ops');
    forall r: nat, x: int ensures Held(s1.tensors, r, x) <==> Held(s2.tensors, r, x) {
      if Held(s1.tensors, r, x) {
        ExtentsDecide(s1.tensors, s2.tensors, r, x);
      }
      if Held(s2.tensors, r, x) {
        ExtentsDecide(s2.tensors, s1.tensors, r, x);
      }
    }
    SameLiveSameFree(s1, s2, pools);
  }

  /** Freeing the tensor recorded last takes exactly that record out of the table. */
  lemma FreeLast(st: State, t: Tensor, id: nat)
    requires Shaped(st) && |st.tensors| > 0 && st.tensors[|st.tensors| - 1] == t && t.id == id && t.refCount == 1
    requires forall i :: 0 <= i < |st.tensors| - 1 ==> st.tensors[i].id != id
    requires st.blocksUsed < MAX_BLOCKS
    ensures Free(st, id).1 == Ok && Free(st, id).0.tensors == st.tensors[..|st.tensors| - 1]
  {
    assert FindTensor(st.tensors, id) == Some(|st.tensors| - 1);
  }

  /** A successful free undoes the allocation before it: same table, same free lists. */
  lemma AllocThenFree(st: State, pools: seq<seq<Block>>, size: U64, alignment: U32, region: U32, lifetime: Lifetime)
    requires Inv(st, pools) && Alloc(st, size, alignment, region, lifetime).status == Ok
    requires Alloc(st, size, alignment, region, lifetime).state.blocksUsed < MAX_BLOCKS
    ensures var res := Alloc(st, size, alignment, region, lifetime);
            var (st', status) := Free(res.state, res.tensor.value.id);
            status == Ok && st'.free == st.free && st'.tensors == st.tensors
  {
    var res := Alloc(st, size, alignment, region, lifetime);
    var st1, t := res.state, res.tensor.value;
    assert st1.tensors == st.tensors + [t] && t.id == st.nextId && t.refCount == 1 by {
      var k, cut := AllocIsTaken(st, size, alignment, region, lifetime);
    }
    assert forall i :: 0 <= i < |st.tensors| ==> st1.tensors[i].id != t.id;
    FreeLast(st1, t, t.id);
    assert st1.tensors[..|st.tensors|] == st.tensors;
    var st2 := Free(st1, t.id).0;
    assert Inv(st2, pools) by {
      AllocKeepsInv(st, pools, size, alignment, region, lifetime);
      FreeKeepsInv(st1, pools, t.id);
    }
    SameLiveSameFree(st, st2, pools);
  }
}
