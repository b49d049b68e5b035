/**
 What every run of the tensor memory manager keeps: in each region the free blocks and the live
 tensors tile the initial pool exactly, the free list is maximally coalesced, and the statistics
 are the interval sums.
 */
module TensorProofs {
  import opened Types
  import opened LinkedList
  import opened FreeBlocks
  import opened Alignment
  import opened TensorSpec

  /** Every managed address is below 2 GiB, so that no 32-bit rounding can truncate it. */
  const ADDRESS_LIMIT: nat := 0x8000_0000

  predicate Owns(t: Tensor, r: nat, x: int) {
    t.region == r && t.base <= x < t.base + t.size
  }

  /** Address `x` of region `r` belongs to a live tensor. */
  ghost predicate Held(ts: seq<Tensor>, r: nat, x: int) {
    exists i :: 0 <= i < |ts| && Owns(ts[i], r, x)
  }

  /** Free blocks and live tensors of region `r` partition the addresses of its pool. */
  ghost predicate Tiled(pool: seq<Block>, s: seq<Block>, ts: seq<Tensor>, r: nat) {
    && (forall x: int :: Covers(pool, x) <==> Covers(s, x) || Held(ts, r, x))
    && (forall x: int :: !(Covers(s, x) && Held(ts, r, x)))
  }

  predicate DisjointTensors(t: Tensor, u: Tensor) {
    t.base + t.size <= u.base || u.base + u.size <= t.base
  }

  ghost predicate TensorsOk(ts: seq<Tensor>, nextId: nat) {
    && (forall i :: 0 <= i < |ts| ==>
          && ts[i].region < REGIONS && ts[i].size > 0 && 0 < ts[i].id < nextId
          && ts[i].refCount < U32_LIMIT)
    && (forall i, j :: 0 <= i < j < |ts| ==> ts[i].id != ts[j].id)
    && (forall i, j :: 0 <= i < j < |ts| && ts[i].region == ts[j].region ==> DisjointTensors(ts[i], ts[j]))
  }

  predicate InHole(x: int) { USER_BASE <= x < USER_END }

  ghost predicate PoolOk(pool: seq<Block>) {
    && Normal(pool)
    && forall x: int :: Covers(pool, x) ==> 0 <= x < ADDRESS_LIMIT && !InHole(x)
  }

  ghost predicate PoolsOk(pools: seq<seq<Block>>) {
    && |pools| == REGIONS
    && (forall r :: 0 <= r < REGIONS ==> PoolOk(pools[r]))
    && (forall r, q, x: int :: 0 <= r < q < REGIONS && Covers(pools[r], x) ==> !Covers(pools[q], x))
  }

  function FreeSum(free: seq<seq<Block>>, n: nat): (t: nat)
    requires n <= |free|
  {
    if n == 0 then 0 else FreeSum(free, n - 1) + Total(free[n - 1])
  }

  /** The bytes of the first `n` tensors, all of them or those of one lifetime class. */
  function HeldSum(ts: seq<Tensor>, n: nat, class_: Option<Lifetime>): (t: nat)
    requires n <= |ts|
  {
    if n == 0 then 0
    else HeldSum(ts, n - 1, class_) + (if class_ == None || class_ == Some(ts[n - 1].lifetime) then ts[n - 1].size else 0)
  }

  function HeldBytes(ts: seq<Tensor>, class_: Option<Lifetime>): nat { HeldSum(ts, |ts|, class_) }

  ghost predicate StatsOk(st: State, pools: seq<seq<Block>>)
    requires |st.free| == REGIONS && |pools| == REGIONS
  {
    && st.stats.total == FreeSum(pools, REGIONS)
    && st.stats.used == HeldBytes(st.tensors, None)
    && st.stats.free == FreeSum(st.free, REGIONS)
    && st.stats.used + st.stats.free == st.stats.total
    && st.stats.shortTerm == HeldBytes(st.tensors, Some(ShortTerm))
    && st.stats.longTerm == HeldBytes(st.tensors, Some(LongTerm))
    && st.stats.realtime == HeldBytes(st.tensors, Some(Realtime))
    && st.stats.random == HeldBytes(st.tensors, Some(Random))
    && st.stats.used <= st.stats.peak <= st.stats.total
    && st.stats.tensorCount == |st.tensors|
    && 0 <= st.stats.freeCount <= st.blocksUsed
    && st.stats.allocCount == |st.tensors| + st.stats.freeCount
  }

  ghost predicate RegionOk(pool: seq<Block>, s: seq<Block>, ts: seq<Tensor>, r: nat) {
    Normal(s) && Tiled(pool, s, ts, r)
  }

  ghost predicate Inv(st: State, pools: seq<seq<Block>>) {
    && Shaped(st)
    && PoolsOk(pools)
    && (forall r :: 0 <= r < REGIONS ==> RegionOk(pools[r], st.free[r], st.tensors, r))
    && TensorsOk(st.tensors, st.nextId)
    && |st.tensors| <= MAX_TENSORS
    && st.blocksUsed <= MAX_BLOCKS
    && st.nextId == 1 + st.stats.allocCount
    && StatsOk(st, pools)
  }

  lemma InvFacts(st: State, pools: seq<seq<Block>>)
    requires Inv(st, pools)
    ensures Shaped(st) && TensorsOk(st.tensors, st.nextId) && st.blocksUsed <= MAX_BLOCKS
  {
  }

  // ---------- sums ----------

  lemma {:induction false} FreeSumUpdate(free: seq<seq<Block>>, r: nat, s: seq<Block>, n: nat)
    requires r < |free| && n <= |free|
    ensures FreeSum(free[r := s], n) == FreeSum(free, n) + (if n > r then Total(s) - Total(free[r]) else 0)
  {
    if n > 0 {
      FreeSumUpdate(free, r, s, n - 1);
    }
  }

  lemma {:induction false} HeldSumAgree(ts: seq<Tensor>, us: seq<Tensor>, n: nat, c: Option<Lifetime>)
    requires n <= |ts| && n <= |us|
    requires forall i :: 0 <= i < n ==> ts[i].size == us[i].size && ts[i].lifetime == us[i].lifetime
    ensures HeldSum(ts, n, c) == HeldSum(us, n, c)
  {
    if n > 0 {
      HeldSumAgree(ts, us, n - 1, c);
    }
  }

  function Share(t: Tensor, c: Option<Lifetime>): nat {
    if c == None || c == Some(t.lifetime) then t.size else 0
  }

  lemma HeldAppend(ts: seq<Tensor>, t: Tensor, c: Option<Lifetime>)
    ensures HeldBytes(ts + [t], c) == HeldBytes(ts, c) + Share(t, c)
  {
    HeldSumAgree(ts + [t], ts, |ts|, c);
  }

  lemma {:induction false} HeldSumUpdate(ts: seq<Tensor>, i: nat, t: Tensor, n: nat, c: Option<Lifetime>)
    requires i < |ts| && n <= |ts|
    ensures HeldSum(ts[i := t], n, c) == HeldSum(ts, n, c) + (if n > i then Share(t, c) - Share(ts[i], c) else 0)
  {
    if n > 0 {
      HeldSumUpdate(ts, i, t, n - 1, c);
    }
  }

  lemma HeldSwapRemove(ts: seq<Tensor>, i: nat, c: Option<Lifetime>)
    requires i < |ts|
    ensures HeldBytes(SwapRemove(ts, i), c) == HeldBytes(ts, c) - Share(ts[i], c)
  {
    var n := |ts| - 1;
    HeldSumUpdate(ts, i, ts[n], n, c);
    HeldSumAgree(SwapRemove(ts, i), ts[i := ts[n]], n, c);
  }

  lemma HeldSetRef(ts: seq<Tensor>, i: nat, n: nat, c: Option<Lifetime>)
    requires i < |ts|
    ensures HeldBytes(ts[i := ts[i].(refCount := n)], c) == HeldBytes(ts, c)
  {
    HeldSumAgree(ts[i := ts[i].(refCount := n)], ts, |ts|, c);
  }

  // ---------- addresses held by tensors ----------

  lemma HeldAt(ts: seq<Tensor>, i: nat, r: nat, x: int)
    requires i < |ts| && Owns(ts[i], r, x)
    ensures Held(ts, r, x)
  {
  }

  lemma HeldByAppend(ts: seq<Tensor>, t: Tensor, r: nat, x: int)
    ensures Held(ts + [t], r, x) <==> Held(ts, r, x) || Owns(t, r, x)
  {
    if Owns(t, r, x) {
      HeldAt(ts + [t], |ts|, r, x);
    }
    if Held(ts, r, x) {
      var i :| 0 <= i < |ts| && Owns(ts[i], r, x);
      HeldAt(ts + [t], i, r, x);
    }
  }

  lemma HeldBySwapRemove(ts: seq<Tensor>, i: nat, nextId: nat, r: nat, x: int)
    requires i < |ts| && TensorsOk(ts, nextId)
    ensures Held(SwapRemove(ts, i), r, x) <==> Held(ts, r, x) && !Owns(ts[i], r, x)
  {
    var us := SwapRemove(ts, i);
    var last := |ts| - 1;
    if Held(ts, r, x) && !Owns(ts[i], r, x) {
      var j :| 0 <= j < |ts| && Owns(ts[j], r, x);
      HeldAt(us, if j == last then i else j, r, x);
    }
    if Held(us, r, x) {
      var j :| 0 <= j < |us| && Owns(us[j], r, x);
      var j' := if j == i then last else j;
      HeldAt(ts, j', r, x);
      assert j' != i ==> ts[j'].region == ts[i].region ==> DisjointTensors(ts[j'], ts[i]) by {
        assert j' < i ==> ts[j'].region == ts[i].region ==> DisjointTensors(ts[j'], ts[i]);
        assert i < j' ==> ts[i].region == ts[j'].region ==> DisjointTensors(ts[i], ts[j']);
      }
    }
  }

  lemma HeldSameExtents(ts: seq<Tensor>, us: seq<Tensor>, r: nat, x: int)
    requires |ts| == |us|
    requires forall i :: 0 <= i < |ts| ==>
               us[i].region == ts[i].region && us[i].base == ts[i].base && us[i].size == ts[i].size
    ensures Held(us, r, x) <==> Held(ts, r, x)
  {
    if Held(ts, r, x) {
      var i :| 0 <= i < |ts| && Owns(ts[i], r, x);
      HeldAt(us, i, r, x);
    }
    if Held(us, r, x) {
      var i :| 0 <= i < |us| && Owns(us[i], r, x);
      HeldAt(ts, i, r, x);
    }
  }

  // ---------- a free block of a sound state ----------

  lemma BlockBounds(st: State, pools: seq<seq<Block>>, r: nat, k: nat)
    requires Inv(st, pools) && r < REGIONS && k < |st.free[r]|
    ensures End(st.free[r][k]) <= ADDRESS_LIMIT
    ensures End(st.free[r][k]) <= USER_BASE || USER_END <= st.free[r][k].base
  {
    var b := st.free[r][k];
    assert PoolOk(pools[r]) && RegionOk(pools[r], st.free[r], st.tensors, r);
    CoversAt(st.free[r], k, End(b) - 1);
    assert Covers(pools[r], End(b) - 1);
    if b.base < USER_END && USER_BASE < End(b) {
      var x := Max(b.base, USER_BASE);
      CoversAt(st.free[r], k, x);
      assert false;
    }
  }

  function Pow2(k: nat): nat { if k == 0 then 1 else 2 * Pow2(k - 1) }

  lemma {:induction false} Pow2Gap(k: nat, a: nat)
    requires Pow2(k) < a < 2 * Pow2(k)
    ensures !IsPow2(a)
  {
    if k > 0 && a % 2 == 0 {
      Pow2Gap(k - 1, a / 2);
    }
  }

  /** Powers of two that fit a uint32_t are at most 2^31. */
  lemma Pow2Limit(a: nat)
    requires IsPow2(a) && a < U32_LIMIT
    ensures a <= 0x8000_0000
  {
    assert Pow2(8) == 0x100;
    assert Pow2(16) == 0x1_0000;
    assert Pow2(24) == 0x100_0000;
    assert Pow2(31) == 0x8000_0000;
    if a > 0x8000_0000 {
      Pow2Gap(31, a);
      assert false;
    }
  }

  lemma WasteBelowLimit(b: Block, a: nat)
    requires b.base <= ADDRESS_LIMIT && 0 < a <= 0x8000_0000
    ensures AlignUp32(b.base, a) == AlignUp(b.base, a) == b.base + Waste(b, a)
  {
    AlignUp32Exact(b.base, a);
    AlignUpLeast(b.base, a, 0);
    var w := AlignUp(b.base, a) - b.base;
    assert 0 <= w < U64_LIMIT;
    assert w % U64_LIMIT == w;
  }

  /** In a sound state the rounding of a block base is exact. */
  lemma WasteExact(st: State, pools: seq<seq<Block>>, r: nat, k: nat, a: nat)
    requires Inv(st, pools) && r < REGIONS && k < |st.free[r]|
    requires IsPow2(a) && a < U32_LIMIT
    ensures var b := st.free[r][k];
            && AlignUp32(b.base, a) == AlignUp(b.base, a) == b.base + Waste(b, a)
            && b.base <= U64_MAX - (a - 1) && b.base + a - 1 < U32_LIMIT
  {
    assert End(st.free[r][k]) <= ADDRESS_LIMIT && st.free[r][k].size > 0 by {
      BlockBounds(st, pools, r, k);
      assert RegionOk(pools[r], st.free[r], st.tensors, r);
    }
    Pow2Limit(a);
    WasteBelowLimit(st.free[r][k], a);
  }

  // ---------- allocation ----------

  lemma TakenRegion(pool: seq<Block>, s: seq<Block>, ts: seq<Tensor>, r: nat, k: nat, cut: Cut, t: Tensor)
    requires RegionOk(pool, s, ts, r) && k < |s| && cut.prefix + cut.taken <= s[k].size && cut.taken > 0
    requires t.region == r && t.base == s[k].base + cut.prefix && t.size == cut.taken
    ensures RegionOk(pool, Carve(s, k, cut.prefix, cut.taken), ts + [t], r)
  {
    var s' := Carve(s, k, cut.prefix, cut.taken);
    CarveNormal(s, k, cut.prefix, cut.taken);
    forall x: int
      ensures Covers(pool, x) <==> Covers(s', x) || Held(ts + [t], r, x)
      ensures !(Covers(s', x) && Held(ts + [t], r, x))
    {
      CoversCarve(s, k, cut.prefix, cut.taken, x);
      HeldByAppend(ts, t, r, x);
      if Owns(t, r, x) {
        CoversAt(s, k, x);
      }
    }
  }

  lemma OtherRegion(pool: seq<Block>, s: seq<Block>, ts: seq<Tensor>, r: nat, t: Tensor)
    requires RegionOk(pool, s, ts, r) && t.region != r
    ensures RegionOk(pool, s, ts + [t], r)
  {
    forall x: int ensures Held(ts + [t], r, x) <==> Held(ts, r, x) {
      HeldByAppend(ts, t, r, x);
    }
  }

  /** A tensor cut out of free memory shares no address with a live one. */
  lemma FreshTensorApart(pool: seq<Block>, s: seq<Block>, ts: seq<Tensor>, r: nat, k: nat, t: Tensor, i: nat)
    requires RegionOk(pool, s, ts, r) && k < |s| && i < |ts| && ts[i].region == r && ts[i].size > 0
    requires s[k].base <= t.base && t.base + t.size <= End(s[k]) && t.size > 0
    ensures DisjointTensors(ts[i], t)
  {
    var x := Max(ts[i].base, t.base);
    if !DisjointTensors(ts[i], t) {
      CoversAt(s, k, x);
      HeldAt(ts, i, r, x);
      assert false;
    }
  }

  lemma TakenTensors(st: State, pools: seq<seq<Block>>, region: nat, k: nat, t: Tensor)
    requires Inv(st, pools) && region < REGIONS && k < |st.free[region]|
    requires t.region == region && t.id == st.nextId && t.size > 0 && t.refCount == 1
    requires st.free[region][k].base <= t.base && t.base + t.size <= End(st.free[region][k])
    ensures TensorsOk(st.tensors + [t], st.nextId + 1)
  {
    var ts := st.tensors;
    var us := ts + [t];
    assert RegionOk(pools[region], st.free[region], ts, region);
    forall i, j | 0 <= i < j < |us| && us[i].region == us[j].region ensures DisjointTensors(us[i], us[j]) {
      if j == |ts| {
        FreshTensorApart(pools[region], st.free[region], ts, region, k, t, i);
      }
    }
  }

  lemma TakenStats(st: State, pools: seq<seq<Block>>, region: nat, k: nat, cut: Cut, lifetime: Lifetime)
    requires Inv(st, pools) && region < REGIONS && k < |st.free[region]|
    requires cut.prefix + cut.taken <= st.free[region][k].size
    ensures StatsOk(Taken(st, region, k, cut, lifetime).state, pools)
  {
    var r := Taken(st, region, k, cut, lifetime);
    var t := r.tensor.value;
    TotalCarve(st.free[region], k, cut.prefix, cut.taken);
    FreeSumUpdate(st.free, region, r.state.free[region], REGIONS);
    HeldAppend(st.tensors, t, None);
    HeldAppend(st.tensors, t, Some(ShortTerm));
    HeldAppend(st.tensors, t, Some(LongTerm));
    HeldAppend(st.tensors, t, Some(Realtime));
    HeldAppend(st.tensors, t, Some(Random));
  }

  lemma TakenRegions(st: State, pools: seq<seq<Block>>, region: nat, k: nat, cut: Cut, t: Tensor, r: nat)
    requires Inv(st, pools) && region < REGIONS && k < |st.free[region]| && r < REGIONS
    requires cut.prefix + cut.taken <= st.free[region][k].size && cut.taken > 0
    requires t.region == region && t.base == st.free[region][k].base + cut.prefix && t.size == cut.taken
    ensures RegionOk(pools[r],
                     if r == region then Carve(st.free[r], k, cut.prefix, cut.taken) else st.free[r],
                     st.tensors + [t], r)
  {
    assert RegionOk(pools[r], st.free[r], st.tensors, r);
    if r == region {
      TakenRegion(pools[r], st.free[r], st.tensors, r, k, cut, t);
    } else {
      OtherRegion(pools[r], st.free[r], st.tensors, r, t);
    }
  }

  /** Identifiers never wrap: every free spends a descriptor, so there are few allocations ever. */
  lemma NextIdBound(st: State, pools: seq<seq<Block>>)
    requires Inv(st, pools)
    ensures st.nextId <= 1 + MAX_TENSORS + MAX_BLOCKS
    ensures (st.nextId + 1) % U32_LIMIT == st.nextId + 1
  {
  }

  lemma TakenKeepsInv(st: State, pools: seq<seq<Block>>, region: nat, k: nat, cut: Cut, lifetime: Lifetime)
    requires Inv(st, pools) && region < REGIONS && k < |st.free[region]|
    requires cut.prefix + cut.taken <= st.free[region][k].size && cut.taken > 0
    requires |st.tensors| < MAX_TENSORS && st.blocksUsed + cut.spent <= MAX_BLOCKS
    ensures Inv(Taken(st, region, k, cut, lifetime).state, pools)
  {
    var st' := Taken(st, region, k, cut, lifetime).state;
    var t := Taken(st, region, k, cut, lifetime).tensor.value;
    NextIdBound(st, pools);
    TakenTensors(st, pools, region, k, t);
    TakenStats(st, pools, region, k, cut, lifetime);
    forall r | 0 <= r < REGIONS ensures RegionOk(pools[r], st'.free[r], st'.tensors, r) {
      TakenRegions(st, pools, region, k, cut, t, r);
    }
  }

  // ---------- release ----------

  lemma ReleasedRegion(pool: seq<Block>, s: seq<Block>, ts: seq<Tensor>, r: nat, i: nat, nextId: nat)
    requires RegionOk(pool, s, ts, r) && i < |ts| && TensorsOk(ts, nextId) && ts[i].region == r
    ensures RegionOk(pool, GiveBack(s, BlockOf(ts[i])), SwapRemove(ts, i), r)
  {
    var b := BlockOf(ts[i]);
    forall j | 0 <= j < |s| ensures End(s[j]) <= b.base || End(b) <= s[j].base {
      var x := Max(s[j].base, b.base);
      if !(End(s[j]) <= b.base || End(b) <= s[j].base) {
        CoversAt(s, j, x);
        HeldAt(ts, i, r, x);
        assert false;
      }
    }
    GiveBackNormal(s, b);
    forall x: int
      ensures Covers(pool, x) <==> Covers(GiveBack(s, b), x) || Held(SwapRemove(ts, i), r, x)
      ensures !(Covers(GiveBack(s, b), x) && Held(SwapRemove(ts, i), r, x))
    {
      CoversGiveBack(s, b, x);
      HeldBySwapRemove(ts, i, nextId, r, x);
      if Inside(b, x) {
        HeldAt(ts, i, r, x);
      }
    }
  }

  lemma ReleasedOther(pool: seq<Block>, s: seq<Block>, ts: seq<Tensor>, r: nat, i: nat, nextId: nat)
    requires RegionOk(pool, s, ts, r) && i < |ts| && TensorsOk(ts, nextId) && ts[i].region != r
    ensures RegionOk(pool, s, SwapRemove(ts, i), r)
  {
    forall x: int ensures Held(SwapRemove(ts, i), r, x) <==> Held(ts, r, x) {
      HeldBySwapRemove(ts, i, nextId, r, x);
    }
  }

  lemma ReleasedTensors(ts: seq<Tensor>, i: nat, nextId: nat)
    requires TensorsOk(ts, nextId) && i < |ts|
    ensures TensorsOk(SwapRemove(ts, i), nextId)
  {
    var us := SwapRemove(ts, i);
    var last := |ts| - 1;
    forall j, l | 0 <= j < l < |us|
      ensures us[j].id != us[l].id
      ensures us[j].region == us[l].region ==> DisjointTensors(us[j], us[l])
    {
      var j', l' := if j == i then last else j, if l == i then last else l;
      assert us[j] == ts[j'] && us[l] == ts[l'];
      if j' < l' {
        assert ts[j'].id != ts[l'].id;
      } else {
        assert ts[l'].id != ts[j'].id;
      }
    }
  }

  lemma ReleasedStats(st: State, pools: seq<seq<Block>>, i: nat)
    requires Inv(st, pools) && i < |st.tensors|
    ensures StatsOk(Released(st, i), pools)
  {
    var t := st.tensors[i];
    var st' := Released(st, i);
    TotalGiveBack(st.free[t.region], BlockOf(t));
    FreeSumUpdate(st.free, t.region, st'.free[t.region], REGIONS);
    HeldSwapRemove(st.tensors, i, None);
    HeldSwapRemove(st.tensors, i, Some(ShortTerm));
    HeldSwapRemove(st.tensors, i, Some(LongTerm));
    HeldSwapRemove(st.tensors, i, Some(Realtime));
    HeldSwapRemove(st.tensors, i, Some(Random));
  }

  lemma ReleasedKeepsInv(st: State, pools: seq<seq<Block>>, i: nat)
    requires Inv(st, pools) && i < |st.tensors| && st.blocksUsed < MAX_BLOCKS
    ensures Inv(Released(st, i), pools)
  {
    var st' := Released(st, i);
    ReleasedTensors(st.tensors, i, st.nextId);
    ReleasedStats(st, pools, i);
    forall r | 0 <= r < REGIONS ensures RegionOk(pools[r], st'.free[r], st'.tensors, r) {
      assert RegionOk(pools[r], st.free[r], st.tensors, r);
      if r == st.tensors[i].region {
        ReleasedRegion(pools[r], st.free[r], st.tensors, r, i, st.nextId);
      } else {
        ReleasedOther(pools[r], st.free[r], st.tensors, r, i, st.nextId);
      }
    }
  }

  // ---------- reference counts ----------

  lemma SetRefKeepsInv(st: State, pools: seq<seq<Block>>, i: nat, n: nat)
    requires Inv(st, pools) && i < |st.tensors| && n < U32_LIMIT
    ensures Inv(SetRef(st, i, n), pools)
  {
    var st' := SetRef(st, i, n);
    HeldSetRef(st.tensors, i, n, None);
    HeldSetRef(st.tensors, i, n, Some(ShortTerm));
    HeldSetRef(st.tensors, i, n, Some(LongTerm));
    HeldSetRef(st.tensors, i, n, Some(Realtime));
    HeldSetRef(st.tensors, i, n, Some(Random));
    forall r | 0 <= r < REGIONS ensures RegionOk(pools[r], st'.free[r], st'.tensors, r) {
      assert RegionOk(pools[r], st.free[r], st.tensors, r);
      forall x: int ensures Held(st'.tensors, r, x) <==> Held(st.tensors, r, x) {
        HeldSameExtents(st.tensors, st'.tensors, r, x);
      }
    }
  }
}
