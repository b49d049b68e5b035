/**
 Initialisation of the tensor memory manager: the pools are laid out behind the kernel image,
 the bootstrap user window is cut out, and a boundary probe allocates on both sides of the hole
 and frees again.
 */
module TensorBoot {
  import opened Types
  import opened LinkedList
  import opened FreeBlocks
  import opened Alignment
  import opened TensorSpec
  import opened TensorProofs
  import opened TensorTheorems
  import opened TensorMM

  const TENSOR_REGION: nat := 1
  const POOLS: nat := 4

  /** Pool `i` belongs to region `i + 1`: tensor, model, inference, DMA. */
  function PoolSize(i: nat): nat {
    if i == 0 then 256 * MIB else if i == 1 then 512 * MIB else if i == 2 then 128 * MIB else 64 * MIB
  }

  /** Where pool `i` starts, counted from the first pool. */
  function PoolOffset(i: nat): nat {
    if i == 0 then 0 else PoolOffset(i - 1) + PoolSize(i - 1)
  }

  function MinInt(x: int, y: int): int { if x < y then x else y }
  function MaxInt(x: int, y: int): int { if x < y then y else x }

  function Whole(base: nat, end: int): seq<Block> {
    if base < end then [Block(base, end - base, true)] else []
  }

  /** The blocks one pool contributes: everything but the hole. */
  function PoolBlocks(base: nat, size: nat): seq<Block> {
    if RangesOverlap(base, base + size, USER_BASE, USER_END) then
      Whole(base, MinInt(base + size, USER_BASE)) + Whole(MaxInt(base, USER_END), base + size)
    else Whole(base, base + size)
  }

  function Overlap(base: nat, size: nat): nat {
    if RangesOverlap(base, base + size, USER_BASE, USER_END)
    then MinInt(base + size, USER_END) - MaxInt(base, USER_BASE) else 0
  }

  /** The free lists once the first `n` pools behind `base` are added. */
  function PoolLists(base: nat, n: nat): (r: seq<seq<Block>>)
    ensures |r| == REGIONS
  {
    seq(REGIONS, i requires 0 <= i < REGIONS =>
      if 1 <= i <= n && i <= POOLS then PoolBlocks(base + PoolOffset(i - 1), PoolSize(i - 1)) else [])
  }

  function OverlapSum(base: nat, n: nat): nat {
    if n == 0 then 0 else OverlapSum(base, n - 1) + Overlap(base + PoolOffset(n - 1), PoolSize(n - 1))
  }

  function ZeroStats(): Stats { Stats(0, 0, 0, 0, 0, 0, 0, 0, 0, 0, 0) }

  /** The state right after a successful initialisation. */
  function BootState(base: nat, blocksUsed: nat): State {
    var lists := PoolLists(base, POOLS);
    State(lists, [], 1, blocksUsed,
          ZeroStats().(total := FreeSum(lists, REGIONS), free := FreeSum(lists, REGIONS)))
  }

  lemma CoversOne(b: Block, x: int)
    ensures Covers([b], x) <==> Inside(b, x)
  {
    if Inside(b, x) {
      CoversAt([b], 0, x);
    }
  }

  /** Each pool list is normal, and covers exactly the pool without the hole. */
  lemma PoolBlocksCover(base: nat, size: nat, x: int)
    requires size > 0
    ensures Covers(PoolBlocks(base, size), x) <==> base <= x < base + size && !InHole(x)
  {
    var s := PoolBlocks(base, size);
    if Covers(s, x) {
      var i :| 0 <= i < |s| && Inside(s[i], x);
    }
    if base <= x < base + size && !InHole(x) {
      if x < USER_BASE {
        CoversAt(s, 0, x);
      } else {
        CoversAt(s, |s| - 1, x);
      }
    }
  }

  lemma PoolBlocksNormal(base: nat, size: nat)
    ensures Normal(PoolBlocks(base, size))
  {
  }

  lemma PoolOffsets()
    ensures PoolOffset(0) == 0 && PoolOffset(1) == 256 * MIB && PoolOffset(2) == 768 * MIB
    ensures PoolOffset(3) == 896 * MIB && PoolOffset(4) == 960 * MIB
  {
  }

  lemma PoolPoint(base: nat, r: nat, x: int)
    requires r < REGIONS && Covers(PoolLists(base, POOLS)[r], x)
    ensures 1 <= r <= POOLS && !InHole(x)
    ensures base + PoolOffset(r - 1) <= x < base + PoolOffset(r - 1) + PoolSize(r - 1)
  {
    if 1 <= r <= POOLS {
      PoolBlocksCover(base + PoolOffset(r - 1), PoolSize(r - 1), x);
    }
  }

  lemma BootPoolsOk(base: nat)
    requires base <= USER_BASE
    ensures PoolsOk(PoolLists(base, POOLS))
  {
    var pools := PoolLists(base, POOLS);
    PoolOffsets();
    forall r | 0 <= r < REGIONS ensures PoolOk(pools[r]) {
      if 1 <= r <= POOLS {
        PoolBlocksNormal(base + PoolOffset(r - 1), PoolSize(r - 1));
      }
      forall x: int | Covers(pools[r], x) ensures 0 <= x < ADDRESS_LIMIT && !InHole(x) {
        PoolPoint(base, r, x);
      }
    }
    forall r, q, x: int | 0 <= r < q < REGIONS && Covers(pools[r], x) ensures !Covers(pools[q], x) {
      PoolPoint(base, r, x);
      if Covers(pools[q], x) {
        PoolPoint(base, q, x);
        assert false;
      }
    }
  }

  /** A manager that has just been initialised is sound. */
  lemma BootInv(base: nat, blocksUsed: nat)
    requires base <= USER_BASE && blocksUsed <= MAX_BLOCKS
    ensures Inv(BootState(base, blocksUsed), PoolLists(base, POOLS))
  {
    BootPoolsOk(base);
    var pools := PoolLists(base, POOLS);
    forall r | 0 <= r < REGIONS ensures RegionOk(pools[r], pools[r], [], r) {
      assert PoolOk(pools[r]);
    }
  }

  /** add_initial_pool_block: an empty piece adds nothing. */
  method AddBlock(m: TensorManager, base: nat, end: int, region: nat) returns (status: Status)
    requires m.Valid() && region < REGIONS
    requires forall j :: 0 <= j < |m.lists.contents[region]| ==> m.lists.contents[region][j].base < base
    modifies m`blockPoolNext, m`stats, m.lists
    ensures m.Valid()
    ensures status == (if base < end && old(m.blockPoolNext) >= MAX_BLOCKS then NoMem else Ok)
    ensures m.blockPoolNext <= old(m.blockPoolNext) + 1
    ensures status == Ok ==>
              var added := if base < end then end - base else 0;
              && m.lists.contents
                 == old(m.lists.contents)[region := old(m.lists.contents)[region] + Whole(base, end)]
              && m.stats == old(m.stats).(total := old(m.stats).total + added, free := old(m.stats).free + added)
  {
    if base >= end {
      assert m.lists.contents[region] + Whole(base, end) == m.lists.contents[region];
      return Ok;
    }
    var block := m.AllocBlock();
    if block.None? {
      return NoMem;
    }
    ghost var s := m.lists.contents[region];
    m.lists.SetLoose(block.value, Block(base, end - base, true));
    InsertPosIs(s, base, |s|);
    m.FreeListInsert(block.value, region);
    assert Insert(s, |s|, Block(base, end - base, true)) == s + Whole(base, end);
    m.stats := m.stats.(total := m.stats.total + (end - base), free := m.stats.free + (end - base));
    status := Ok;
  }

  lemma TotalOfPool(s: seq<Block>, base: nat, end: int)
    ensures Total(s + Whole(base, end)) == Total(s) + (if base < end then end - base else 0)
  {
    if base < end {
      var b := Block(base, end - base, true);
      SumInsert(s, |s|, b, |s|);
      assert Insert(s, |s|, b) == s + [b];
    } else {
      assert s + Whole(base, end) == s;
    }
  }

  /** One pool: the part below the hole and the part above it, or the whole. */
  method AddPool(m: TensorManager, base: nat, size: nat, region: nat) returns (status: Status, excluded: nat)
    requires m.Valid() && region < REGIONS && m.lists.contents[region] == [] && size > 0
    modifies m`blockPoolNext, m`stats, m.lists
    ensures m.Valid() && m.blockPoolNext <= old(m.blockPoolNext) + 2
    ensures old(m.blockPoolNext) + 2 <= MAX_BLOCKS ==> status == Ok
    ensures status == Ok ==>
              && excluded == Overlap(base, size)
              && m.lists.contents == old(m.lists.contents)[region := PoolBlocks(base, size)]
              && m.stats == old(m.stats).(total := old(m.stats).total + Total(PoolBlocks(base, size)),
                                          free := old(m.stats).free + Total(PoolBlocks(base, size)))
  {
    var end := base + size;
    if RangesOverlap(base, end, USER_BASE, USER_END) {
      var prefixEnd := MinInt(end, USER_BASE);
      var suffixBase := MaxInt(base, USER_END);
      excluded := MinInt(end, USER_END) - MaxInt(base, USER_BASE);
      status := AddBlock(m, base, prefixEnd, region);
      if status != Ok {
        return;
      }
      ghost var pre := Whole(base, prefixEnd);
      assert [] + pre == pre;
      TotalOfPool([], base, prefixEnd);
      TotalOfPool(pre, suffixBase, end);
      UpdateTwice(old(m.lists.contents), region, pre, pre + Whole(suffixBase, end));
      status := AddBlock(m, suffixBase, end, region);
    } else {
      excluded := 0;
      TotalOfPool([], base, end);
      assert [] + Whole(base, end) == Whole(base, end);
      status := AddBlock(m, base, end, region);
    }
  }

  lemma {:induction false} OverlapFrom(base: nat, n: nat)
    requires n <= POOLS && base % HUGE_PAGE_SIZE == 0
    ensures base > USER_BASE ==> OverlapSum(base, n) == 0
    ensures base <= USER_BASE && n > 0 ==> OverlapSum(base, n) == USER_SIZE
  {
    PoolOffsets();
    if n > 0 {
      OverlapFrom(base, n - 1);
    }
  }

  lemma NextPool(base: nat, n: nat)
    requires n < POOLS
    ensures PoolLists(base, n)[n + 1] == []
    ensures PoolLists(base, n + 1)
            == PoolLists(base, n)[n + 1 := PoolBlocks(base + PoolOffset(n), PoolSize(n))]
    ensures FreeSum(PoolLists(base, n + 1), REGIONS)
            == FreeSum(PoolLists(base, n), REGIONS) + Total(PoolBlocks(base + PoolOffset(n), PoolSize(n)))
  {
    FreeSumUpdate(PoolLists(base, n), n + 1, PoolBlocks(base + PoolOffset(n), PoolSize(n)), REGIONS);
    assert Total([]) == 0;
  }

  lemma {:induction false} NoPools(n: nat)
    requires n <= REGIONS
    ensures FreeSum(PoolLists(0, 0), n) == 0
  {
    if n > 0 {
      NoPools(n - 1);
    }
  }

  /** ALIGN_UP leaves the start of the next pool alone: every pool size is a multiple of 2 MiB. */
  lemma PoolsStayAligned(base: nat, n: nat)
    requires base % HUGE_PAGE_SIZE == 0 && n <= POOLS
    ensures AlignUp(base + PoolOffset(n), HUGE_PAGE_SIZE) == base + PoolOffset(n)
    ensures PoolOffset(n) <= 960 * MIB
  {
    assert PoolOffset(n) % HUGE_PAGE_SIZE == 0 && PoolOffset(n) <= 960 * MIB by {
      PoolOffsets();
    }
    AlignedSum(base, PoolOffset(n), HUGE_PAGE_SIZE);
    AlignUpLeast(base + PoolOffset(n), HUGE_PAGE_SIZE, base + PoolOffset(n));
  }

  /** What the pool loop has established after `n` pools. */
  ghost predicate LaidOut(m: TensorManager, base: nat, n: nat)
    reads m, m.lists, m.table
  {
    && m.Valid() && m.tensorCount == 0 && m.nextTensorId == 1 && m.blockPoolNext <= 2 * n
    && m.lists.contents == PoolLists(base, n)
    && m.stats == ZeroStats().(total := FreeSum(PoolLists(base, n), REGIONS), free := FreeSum(PoolLists(base, n), REGIONS))
  }

  /** One iteration of the pool loop of tensor_mm_init, from `poolBase` on. */
  method AddNextPool(m: TensorManager, poolBase: nat, i: nat, ghost base: nat)
    returns (status: Status, poolEnd: nat, excluded: nat)
    requires LaidOut(m, base, i) && i < POOLS
    requires AlignUp(poolBase, HUGE_PAGE_SIZE) == base + PoolOffset(i) && poolBase <= base + PoolOffset(i)
    modifies m`blockPoolNext, m`stats, m.lists
    ensures m.Valid()
    ensures base + PoolOffset(i) + PoolSize(i) + HUGE_PAGE_SIZE < U64_MAX ==> status == Ok
    ensures status == Ok ==>
              && LaidOut(m, base, i + 1)
              && poolEnd == base + PoolOffset(i + 1)
              && excluded == Overlap(base + PoolOffset(i), PoolSize(i))
  {
    excluded, poolEnd := 0, 0;
    if poolBase > U64_MAX - (HUGE_PAGE_SIZE - 1) {
      return Overflow, poolEnd, excluded;
    }
    var start := AlignUp(poolBase, HUGE_PAGE_SIZE);
    if start > U64_MAX - PoolSize(i) {
      return Overflow, poolEnd, excluded;
    }
    poolEnd := start + PoolSize(i);
    NextPool(base, i);
    status, excluded := AddPool(m, start, PoolSize(i), i + 1);
  }

  lemma OverlapStep(base: nat, i: nat)
    ensures OverlapSum(base, i + 1) == OverlapSum(base, i) + Overlap(base + PoolOffset(i), PoolSize(i))
  {
  }

  /** The start of pool `i` as the loop finds it, before it is aligned. */
  ghost predicate AtPool(poolStart: nat, base: nat, poolBase: nat, i: nat) {
    && AlignUp(poolBase, HUGE_PAGE_SIZE) == base + PoolOffset(i)
    && poolBase <= base + PoolOffset(i) <= base + 960 * MIB
  }

  lemma NextAtPool(poolStart: nat, base: nat, i: nat)
    requires base == AlignUp(poolStart, HUGE_PAGE_SIZE) && i <= POOLS
    ensures AtPool(poolStart, base, base + PoolOffset(i), i) && AtPool(poolStart, base, poolStart, 0)
  {
    AlignUpLeast(poolStart, HUGE_PAGE_SIZE, 0);
    PoolsStayAligned(base, i);
  }

  lemma LaidOutStart(m: TensorManager, base: nat)
    requires LaidOut(m, 0, 0)
    ensures m.Valid() && LaidOut(m, base, 0)
  {
    assert PoolLists(base, 0) == PoolLists(0, 0);
  }

  /** The pool loop of tensor_mm_init, over the first `count` pools. */
  method LayOutPools(m: TensorManager, poolStart: U64, count: nat) returns (status: Status, excluded: nat, ghost base: nat)
    requires LaidOut(m, 0, 0) && count <= POOLS
    modifies m`blockPoolNext, m`stats, m.lists
    ensures m.Valid() && base == AlignUp(poolStart, HUGE_PAGE_SIZE)
    ensures base <= USER_BASE ==> status == Ok
    ensures status == Ok ==> excluded == OverlapSum(base, count) && LaidOut(m, base, count)
  {
    hide AlignUp, PoolOffset, Overlap, LaidOut;
    base := AlignUp(poolStart, HUGE_PAGE_SIZE);
    NextAtPool(poolStart, base, 0);
    LaidOutStart(m, base);
    excluded, status := 0, Ok;
    var poolBase: nat := poolStart;
    for i := 0 to count
      invariant m.Valid() && LaidOut(m, base, i) && status == Ok && excluded == OverlapSum(base, i)
      invariant AtPool(poolStart, base, poolBase, i)
    {
      var hole;
      status, poolBase, hole := AddNextPool(m, poolBase, i, base);
      if status != Ok {
        return;
      }
      OverlapStep(base, i);
      NextAtPool(poolStart, base, i + 1);
      excluded := excluded + hole;
    }
  }

  /** free_lists_exclude_bootstrap_user_hole, walking every list. */
  method FreeListsExcluded(m: TensorManager) returns (ok: bool)
    requires m.ListsOk()
    ensures ok == FreeListsExclude(m.lists.contents)
  {
    for type_ := 0 to REGIONS
      invariant FreeListsExclude(m.lists.contents[..type_])
    {
      ghost var s, chain := m.lists.contents[type_], m.lists.chains[type_];
      m.lists.ListAt(type_);
      var curr := m.lists.heads[type_];
      ghost var i := 0;
      while curr.Some?
        invariant 0 <= i <= |chain| && curr == At(chain, i)
        invariant forall k :: 0 <= k < i ==> ExcludesHole(s[k].base, s[k].size)
        decreases |chain| - i
      {
        assert LinkAt(m.lists.cells, chain, i);
        var block := m.lists.cells[curr.value].val;
        if !ExcludesHole(block.base, block.size) {
          assert m.lists.contents[type_][i] == block;
          return false;
        }
        curr := m.lists.cells[curr.value].next;
        i := i + 1;
      }
    }
    assert m.lists.contents[..REGIONS] == m.lists.contents;
    ok := true;
  }

  /** active_tensors_exclude_bootstrap_user_hole */
  method TensorsExcluded(m: TensorManager) returns (ok: bool)
    requires m.Valid()
    ensures ok == TensorsExclude(m.table[..m.tensorCount])
  {
    var i := 0;
    while i < m.tensorCount
      invariant 0 <= i <= m.tensorCount && TensorsExclude(m.table[..i])
    {
      if !ExcludesHole(m.table[i].base, m.table[i].size) {
        assert m.table[..m.tensorCount][i] == m.table[i];
        return false;
      }
      i := i + 1;
    }
    ok := true;
  }

  // ---------- the boundary probe ----------

  lemma Divides(x: nat, a: nat, b: nat)
    requires a > 0 && b > 0 && b % a == 0 && x % b == 0
    ensures x % a == 0
  {
    var q, p := x / b, b / a;
    assert x == q * b && b == p * a;
    assert q * (p * a) == (q * p) * a;
    MultipleOf(q * p, a);
  }

  /** A request that is already a multiple needs no rounding. */
  lemma RoundedAsIs(x: nat, a: nat)
    requires a > 0 && x % a == 0 && x + a - 1 < U32_LIMIT
    ensures AlignUp32(x, a) == x
  {
    AlignUp32Exact(x, a);
    AlignUpLeast(x, a, x);
  }

  /** A block that starts aligned and is not in the hole can serve a request it can hold. */
  lemma FeasibleAtBase(b: Block, size: nat, a: nat)
    requires a > 0 && b.base % a == 0 && b.base + a - 1 < U32_LIMIT && b.isFree && 0 < size <= b.size
    requires End(b) <= USER_BASE || USER_END <= b.base
    requires End(b) < U32_LIMIT
    ensures Feasible(b, size, a) && Waste(b, a) == 0 && AlignUp32(b.base, a) == b.base
  {
    RoundedAsIs(b.base, a);
  }

  /** The first block of a list is chosen when it fits and is strictly the smallest. */
  lemma FirstIsBest(s: seq<Block>, size: nat, a: nat)
    requires a > 0 && s != [] && Feasible(s[0], size, a) && s[0].size < U64_MAX
    requires forall i :: 0 < i < |s| ==> s[0].size < s[i].size
    ensures BestFit(s, size, a) == Some(0)
  {
    BestUpToSmallest(s, |s|, size, a);
  }

  lemma PowersOfTwo()
    ensures IsPow2(64) && IsPow2(4096)
  {
    assert IsPow2(8);
    assert IsPow2(64);
    assert IsPow2(512);
  }

  /** An admissible request served from the start of the first block. */
  lemma ServedByFirst(st: State, size: U64, alignment: U32, region: U32, lifetime: Lifetime)
    requires Shaped(st) && region < REGIONS && |st.tensors| < MAX_TENSORS && st.blocksUsed < MAX_BLOCKS
    requires TENSOR_ALIGN <= alignment <= 4096 && IsPow2(alignment)
    requires 0 < size < 0x8000_0000 && size % alignment == 0
    requires var s := st.free[region];
             && s != [] && FeasibleShape(s[0], size, alignment)
             && (forall i :: 0 < i < |s| ==> s[0].size < s[i].size)
    ensures var res := Alloc(st, size, alignment, region, lifetime);
            var b := st.free[region][0];
            && res.status == Ok
            && res.tensor.value.base == b.base
            && (b.size == size || b.size > size + TENSOR_ALIGN ==> res.tensor.value.size == size)
            && res.state.blocksUsed <= st.blocksUsed + 1
            && (b.size == size ==> res.state.free[region] == st.free[region][1..])
  {
    var b := st.free[region][0];
    RoundedAsIs(size, alignment);
    FeasibleAtBase(b, size, alignment);
    FirstIsBest(st.free[region], size, alignment);
    if b.size == size {
      assert Carve(st.free[region], 0, 0, size) == st.free[region][1..];
    }
  }

  predicate FeasibleShape(b: Block, size: nat, a: nat) {
    && a > 0 && b.base % a == 0 && b.isFree && size <= b.size && End(b) < 0x8000_0000
    && (End(b) <= USER_BASE || USER_END <= b.base)
  }

  /** The tensor pool above the hole. */
  function Suffix(base: nat): Block
    requires base <= USER_BASE
  {
    Block(USER_END, base + PoolSize(0) - USER_END, true)
  }

  function TensorList(base: nat): seq<Block>
    requires base <= USER_BASE
  {
    if base < USER_BASE then [Block(base, USER_BASE - base, true), Suffix(base)] else [Suffix(base)]
  }

  lemma TensorPool(base: nat)
    requires base <= USER_BASE
    ensures PoolLists(base, POOLS)[TENSOR_REGION] == TensorList(base)
  {
  }

  /** The first probe takes exactly the memory below the hole. */
  lemma PrefixProbe(st: State, base: nat)
    requires base < USER_BASE && base % HUGE_PAGE_SIZE == 0
    requires Shaped(st) && st.tensors == [] && st.blocksUsed < MAX_BLOCKS
    requires st.free[TENSOR_REGION] == [Block(base, USER_BASE - base, true), Suffix(base)]
    ensures var res := Alloc(st, USER_BASE - base, TENSOR_ALIGN, TENSOR_REGION, ShortTerm);
            && res.status == Ok && res.tensor.value.base == base && res.tensor.value.size == USER_BASE - base
            && res.state.tensors == [res.tensor.value] && res.tensor.value.refCount == 1
            && res.state.free[TENSOR_REGION] == [Suffix(base)]
            && res.state.blocksUsed <= st.blocksUsed + 1
  {
    PowersOfTwo();
    assert base % TENSOR_ALIGN == 0 && (USER_BASE - base) % TENSOR_ALIGN == 0 by {
      Divides(base, TENSOR_ALIGN, HUGE_PAGE_SIZE);
      AlignedDifference(USER_BASE, base, TENSOR_ALIGN);
    }
    assert st.free[TENSOR_REGION][1..] == [Suffix(base)];
    ServedByFirst(st, USER_BASE - base, TENSOR_ALIGN, TENSOR_REGION, ShortTerm);
    var k, cut := AllocIsTaken(st, USER_BASE - base, TENSOR_ALIGN, TENSOR_REGION, ShortTerm);
    assert st.tensors + [Alloc(st, USER_BASE - base, TENSOR_ALIGN, TENSOR_REGION, ShortTerm).tensor.value]
        == [Alloc(st, USER_BASE - base, TENSOR_ALIGN, TENSOR_REGION, ShortTerm).tensor.value];
  }

  /** The second probe starts right at the end of the hole. */
  lemma SuffixProbe(st: State, base: nat)
    requires Shaped(st) && base <= USER_BASE && base % HUGE_PAGE_SIZE == 0
    requires st.free[TENSOR_REGION] == [Suffix(base)] && |st.tensors| < MAX_TENSORS && st.blocksUsed < MAX_BLOCKS
    ensures var res := Alloc(st, PAGE_SIZE, PAGE_SIZE, TENSOR_REGION, ShortTerm);
            && res.status == Ok && res.tensor.value.base == USER_END && res.tensor.value.size == PAGE_SIZE
            && res.state.tensors == st.tensors + [res.tensor.value] && res.tensor.value.refCount == 1
            && res.tensor.value.id == st.nextId
            && res.state.blocksUsed <= st.blocksUsed + 1
  {
    PowersOfTwo();
    ServedByFirst(st, PAGE_SIZE, PAGE_SIZE, TENSOR_REGION, ShortTerm);
    var k, cut := AllocIsTaken(st, PAGE_SIZE, PAGE_SIZE, TENSOR_REGION, ShortTerm);
  }

  /** The live tensors between the two halves of the boundary probe. */
  ghost predicate Probing(m: TensorManager, base: nat, prefix: Option<U32>, suffix: Option<U32>)
    reads m, m.lists, m.table
  {
    && m.Sound() && m.pools == PoolLists(base, POOLS)
    && (prefix.Some? <==> base < USER_BASE) && suffix.Some?
    && m.tensorCount == (if prefix.Some? then 2 else 1)
    && (prefix.Some? ==> m.table[0].id == prefix.value && m.table[0].refCount == 1)
    && m.table[m.tensorCount - 1].id == suffix.value && m.table[m.tensorCount - 1].refCount == 1
  }

  method TakePrefix(m: TensorManager, base: nat) returns (ok: bool, prefix: Option<U32>)
    requires base <= USER_BASE && base % HUGE_PAGE_SIZE == 0
    requires m.Sound() && m.blockPoolNext <= 8 && m.tensorCount == 0
    requires m.lists.contents[TENSOR_REGION] == TensorList(base)
    modifies m, m.lists, m.table
    ensures m.Sound() && m.pools == old(m.pools) && m.blockPoolNext <= old(m.blockPoolNext) + 1
    ensures ok && (prefix.Some? <==> base < USER_BASE)
    ensures m.Abs().free[TENSOR_REGION] == [Suffix(base)]
    ensures prefix.None? ==> m.tensorCount == 0
    ensures prefix.Some? ==> m.tensorCount == 1 && m.table[0].id == prefix.value && m.table[0].refCount == 1
  {
    var prefixSize := USER_BASE - base;
    ok, prefix := true, None;
    if prefixSize > 0 {
      PrefixProbe(m.Abs(), base);
      var status, out := m.AllocAligned(prefixSize, TENSOR_ALIGN, TENSOR_REGION, ShortTerm);
      assert m.Abs().tensors[0] == out.value;
      if status != Ok {
        return false, None;
      }
      prefix := Some(out.value.id);
      ok := out.value.base == base && out.value.size == prefixSize;
    }
  }

  method TakeSuffix(m: TensorManager, ghost base: nat, ghost prefix: Option<U32>) returns (ok: bool, suffix: Option<U32>)
    requires base <= USER_BASE && base % HUGE_PAGE_SIZE == 0
    requires m.Sound() && m.pools == PoolLists(base, POOLS) && m.blockPoolNext <= 9
    requires m.Abs().free[TENSOR_REGION] == [Suffix(base)] && (prefix.Some? <==> base < USER_BASE)
    requires prefix.None? ==> m.tensorCount == 0
    requires prefix.Some? ==> m.tensorCount == 1 && m.table[0].id == prefix.value && m.table[0].refCount == 1
    modifies m, m.lists, m.table
    ensures ok && m.pools == old(m.pools) && m.blockPoolNext <= 10
    ensures Probing(m, base, prefix, suffix)
  {
    hide Alloc;
    SuffixProbe(m.Abs(), base);
    ghost var before := m.Abs().tensors;
    var status, out := m.AllocAligned(PAGE_SIZE, PAGE_SIZE, TENSOR_REGION, ShortTerm);
    assert m.Abs().tensors == before + [out.value];
    assert forall i :: 0 <= i < m.tensorCount ==> m.table[i] == m.Abs().tensors[i];
    if status != Ok {
      return false, None;
    }
    suffix := Some(out.value.id);
    ok := out.value.base >= USER_END && ExcludesHole(out.value.base, out.value.size);
  }

  /** Freeing the last live tensor of a manager whose other tensors are all older. */
  method DropLast(m: TensorManager, id: U32) returns (status: Status)
    requires m.Sound() && m.tensorCount > 0 && m.blockPoolNext < MAX_BLOCKS
    requires m.table[m.tensorCount - 1].id == id && m.table[m.tensorCount - 1].refCount == 1
    modifies m, m.lists, m.table
    ensures m.Sound() && m.pools == old(m.pools) && status == Ok
    ensures m.blockPoolNext == old(m.blockPoolNext) + 1
    ensures m.tensorCount == old(m.tensorCount) - 1
    ensures m.table[..m.tensorCount] == old(m.table[..m.tensorCount - 1])
  {
    ghost var st := m.Abs();
    assert forall i :: 0 <= i < |st.tensors| - 1 ==> st.tensors[i].id != id;
    FreeLast(st, st.tensors[|st.tensors| - 1], id);
    status := m.FreeTensor(id);
    assert m.table[..m.tensorCount] == m.Abs().tensors == st.tensors[..|st.tensors| - 1];
  }

  method DropProbes(m: TensorManager, ghost base: nat, prefix: Option<U32>, suffix: Option<U32>) returns (ok: bool)
    requires Probing(m, base, prefix, suffix) && m.blockPoolNext <= 10
    modifies m, m.lists, m.table
    ensures ok && m.Sound() && m.pools == old(m.pools) && m.tensorCount == 0 && m.blockPoolNext <= 12
  {
    ok := true;
    if suffix.Some? {
      ghost var all := m.table[..m.tensorCount];
      var status := DropLast(m, suffix.value);
      assert m.table[..m.tensorCount] == all[..m.tensorCount];
      assert m.tensorCount > 0 ==> m.table[0] == all[0];
      ok := status == Ok;
    }
    if prefix.Some? {
      var status := DropLast(m, prefix.value);
      ok := ok && status == Ok;
    }
  }

  /** With nothing live the free lists are the pools again. */
  lemma AllFreeAgain(st: State, base: nat)
    requires base <= USER_BASE && Inv(st, PoolLists(base, POOLS)) && st.tensors == []
    ensures st.free == PoolLists(base, POOLS)
  {
    BootInv(base, 0);
    SameLiveSameFree(st, BootState(base, 0), PoolLists(base, POOLS));
  }

  /** tensor_free_list_has_bootstrap_boundaries */
  method HasBoundaries(m: TensorManager, base: nat) returns (ok: bool)
    requires m.ListsOk()
    ensures ok == (var s := m.lists.contents[TENSOR_REGION];
                   && (base == USER_BASE || exists i :: 0 <= i < |s| && s[i].base <= U64_MAX - s[i].size && End(s[i]) == USER_BASE)
                   && exists i :: 0 <= i < |s| && s[i].base == USER_END)
  {
    ghost var s, chain := m.lists.contents[TENSOR_REGION], m.lists.chains[TENSOR_REGION];
    m.lists.ListAt(TENSOR_REGION);
    var prefixBoundary, suffixBoundary := base == USER_BASE, false;
    var curr := m.lists.heads[TENSOR_REGION];
    ghost var n := 0;
    while curr.Some?
      invariant 0 <= n <= |chain| && curr == At(chain, n)
      invariant prefixBoundary == (base == USER_BASE || exists i :: 0 <= i < n && s[i].base <= U64_MAX - s[i].size && End(s[i]) == USER_BASE)
      invariant suffixBoundary == exists i :: 0 <= i < n && s[i].base == USER_END
      decreases |chain| - n
    {
      assert LinkAt(m.lists.cells, chain, n);
      var block := m.lists.cells[curr.value].val;
      assert block == s[n];
      if block.base <= U64_MAX - block.size && block.base + block.size == USER_BASE {
        prefixBoundary := true;
      }
      if block.base == USER_END {
        suffixBoundary := true;
      }
      curr := m.lists.cells[curr.value].next;
      n := n + 1;
    }
    ok := prefixBoundary && suffixBoundary;
  }

  lemma BoundariesPresent(base: nat)
    requires base <= USER_BASE
    ensures var s := TensorList(base);
            && (base == USER_BASE || exists i :: 0 <= i < |s| && s[i].base <= U64_MAX - s[i].size && End(s[i]) == USER_BASE)
            && exists i :: 0 <= i < |s| && s[i].base == USER_END
  {
    var s := TensorList(base);
    assert s[|s| - 1].base == USER_END;
    assert base < USER_BASE ==> End(s[0]) == USER_BASE;
  }

  /** bootstrap_user_tensor_exclusion_selftest: always passes, and leaves no trace but spent descriptors. */
  method BoundaryProbe(m: TensorManager, base: nat) returns (passed: bool)
    requires base <= USER_BASE && base % HUGE_PAGE_SIZE == 0
    requires m.Sound() && m.pools == PoolLists(base, POOLS) && m.blockPoolNext <= 8
    requires m.Abs() == BootState(base, m.blockPoolNext)
    modifies m, m.lists, m.table
    ensures passed && m.Sound() && m.pools == old(m.pools) && m.blockPoolNext <= 12
    ensures m.Abs() == BootState(base, m.blockPoolNext)
  {
    var statsBefore, nextBefore := m.stats, m.nextTensorId;
    TensorPool(base);
    passed := ProbeBothSides(m, base);
    var checked := ChecksAfterProbe(m, base);
    passed := passed && checked;
    m.stats, m.nextTensorId := statsBefore, nextBefore;
    assert m.table[..m.tensorCount] == [];
    BootInv(base, m.blockPoolNext);
  }

  method ProbeBothSides(m: TensorManager, base: nat) returns (passed: bool)
    requires base <= USER_BASE && base % HUGE_PAGE_SIZE == 0
    requires m.Sound() && m.pools == PoolLists(base, POOLS) && m.blockPoolNext <= 8 && m.tensorCount == 0
    requires m.lists.contents[TENSOR_REGION] == TensorList(base)
    modifies m, m.lists, m.table
    ensures passed && m.Sound() && m.pools == old(m.pools) && m.blockPoolNext <= 12
    ensures m.tensorCount == 0 && m.lists.contents == PoolLists(base, POOLS)
  {
    var ok, prefix := TakePrefix(m, base);
    var suffix;
    passed, suffix := TakeSuffix(m, base, prefix);
    passed := passed && ok;
    ok := DropProbes(m, base, prefix, suffix);
    passed := passed && ok;
    AllFreeAgain(m.Abs(), base);
  }

  method ChecksAfterProbe(m: TensorManager, base: nat) returns (passed: bool)
    requires base <= USER_BASE && m.Sound() && m.lists.contents[TENSOR_REGION] == TensorList(base)
    ensures passed
  {
    RangeStaysExcluded(m.Abs(), m.pools);
    BoundariesPresent(base);
    var listsOk := FreeListsExcluded(m);
    var tensorsOk := TensorsExcluded(m);
    var edgesOk := HasBoundaries(m, base);
    passed := listsOk && tensorsOk && edgesOk;
  }

  lemma Times16(n: nat)
    requires IsPow2(n)
    ensures IsPow2(16 * n)
  {
    assert IsPow2(2 * n);
    assert IsPow2(4 * n);
    assert IsPow2(8 * n);
  }

  lemma SmallPowers()
    ensures IsPow2(4) && !IsPow2(96)
  {
    assert !IsPow2(3) && !IsPow2(12) && !IsPow2(48);
  }

  lemma ProbeAlignments()
    ensures IsPow2(64 * MIB) && !IsPow2(96)
  {
    hide IsPow2;
    SmallPowers();
    Times16(4);
    Times16(0x40);
    Times16(0x400);
    Times16(0x4000);
    Times16(0x4_0000);
    Times16(0x40_0000);
  }

  /** A request the manager refuses changes nothing. */
  method RefusedProbe(m: TensorManager, size: U64, alignment: U32, region: U32) returns (status: Status)
    requires m.Sound() && Alloc(m.Abs(), size, alignment, region, ShortTerm).status != Ok
    modifies m, m.lists, m.table
    ensures m.Sound() && m.Abs() == old(m.Abs()) && m.pools == old(m.pools) && m.tensorCount == old(m.tensorCount)
    ensures status == Alloc(old(m.Abs()), size, alignment, region, ShortTerm).status
  {
    var out;
    status, out := m.AllocAligned(size, alignment, region, ShortTerm);
    assert m.tensorCount == |m.Abs().tensors|;
  }

  lemma ProbesRefused(st: State)
    requires Shaped(st) && st.tensors == []
    ensures Alloc(st, U64_MAX, 64 * MIB, TENSOR_REGION, ShortTerm).status == Overflow
    ensures Alloc(st, PAGE_SIZE, PAGE_SIZE, REGIONS, ShortTerm).status == Inval
    ensures Alloc(st, PAGE_SIZE, 96, TENSOR_REGION, ShortTerm).status == Inval
  {
    ProbeAlignments();
  }

  /** The three invalid requests are refused and change nothing. */
  method InvalidProbes(m: TensorManager) returns (ok: bool)
    requires m.Sound() && m.tensorCount == 0
    modifies m, m.lists, m.table
    ensures ok && m.Sound() && m.Abs() == old(m.Abs()) && m.pools == old(m.pools)
  {
    hide Alloc, Inv;
    ProbesRefused(m.Abs());
    var s1 := RefusedProbe(m, U64_MAX, 64 * MIB, TENSOR_REGION);
    var s2 := RefusedProbe(m, PAGE_SIZE, PAGE_SIZE, REGIONS);
    var s3 := RefusedProbe(m, PAGE_SIZE, 96, TENSOR_REGION);
    ok := s1 == Overflow && s2 == Inval && s3 == Inval;
  }

  /**
   tensor_mm_init on a fresh boot: it succeeds exactly when the first pool starts at or below
   the user window, and then the manager is sound over the pools without the hole.
   */
  method InitManager(m: TensorManager, poolStart: U64) returns (status: Status)
    requires LaidOut(m, 0, 0)
    modifies m, m.lists, m.table
    ensures m.Valid()
    ensures status == Ok <==> AlignUp(poolStart, HUGE_PAGE_SIZE) <= USER_BASE
    ensures status == Ok ==>
              var base := AlignUp(poolStart, HUGE_PAGE_SIZE);
              && m.Sound() && m.pools == PoolLists(base, POOLS)
              && m.Abs() == BootState(base, m.blockPoolNext) && m.blockPoolNext <= 12
  {
    var excluded;
    ghost var base;
    status, excluded, base := LayOutPools(m, poolStart, POOLS);
    if status != Ok {
      return;
    }
    AlignUpLeast(poolStart, HUGE_PAGE_SIZE, 0);
    OverlapFrom(base, POOLS);
    if excluded != USER_SIZE {
      return Io;
    }
    status := Verify(m, AlignUp(poolStart, HUGE_PAGE_SIZE));
  }

  /** The checks that follow the pool loop. */
  method Verify(m: TensorManager, base: nat) returns (status: Status)
    requires base <= USER_BASE && base % HUGE_PAGE_SIZE == 0 && LaidOut(m, base, POOLS)
    modifies m, m.lists, m.table
    ensures status == Ok && m.Sound() && m.pools == PoolLists(base, POOLS)
    ensures m.Abs() == BootState(base, m.blockPoolNext) && m.blockPoolNext <= 12
  {
    m.pools := PoolLists(base, POOLS);
    assert m.table[..m.tensorCount] == [];
    BootInv(base, m.blockPoolNext);
    RangeStaysExcluded(m.Abs(), m.pools);
    var listsOk := FreeListsExcluded(m);
    var tensorsOk := TensorsExcluded(m);
    if !listsOk || !tensorsOk {
      return Io;
    }
    var refused := InvalidProbes(m);
    if !refused {
      return Io;
    }
    var passed := BoundaryProbe(m, base);
    status := if passed then Ok else Io;
  }
}
