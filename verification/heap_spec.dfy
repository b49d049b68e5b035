/**
 The kernel heap as a chain of blocks that tiles a fixed pool. A block is named by the offset of
 its 32-byte header; its payload follows the header. Allocation is first fit with a split,
 freeing merges with both neighbours.
 */
module HeapSpec {
  import opened Types
  import opened LinkedList
  import opened FreeBlocks

  const POOL_SIZE: nat := 2 * MIB
  const HEADER: nat := 32
  const HEAP_ALIGN: nat := 16
  const FULL: nat := POOL_SIZE - HEADER

  datatype Stats = Stats(total: nat, used: nat, free: nat, allocs: U32, frees: U32, blocks: int)

  datatype Heap = Heap(blocks: seq<Block>, stats: Stats)

  /** round_up on 64-bit words: the last fifteen sizes wrap to zero. */
  function RoundUp(n: U64): (r: U64)
    ensures r % HEAP_ALIGN == 0
    ensures n <= r <==> n <= U64_LIMIT - HEAP_ALIGN
    ensures n <= U64_LIMIT - HEAP_ALIGN ==> r < n + HEAP_ALIGN
    ensures n > U64_LIMIT - HEAP_ALIGN ==> r == 0
  {
    (n + (HEAP_ALIGN - 1)) % U64_LIMIT / HEAP_ALIGN * HEAP_ALIGN
  }

  /** Where the next header starts. */
  function Next(b: Block): nat { b.base + HEADER + b.size }

  predicate Fits(b: Block, n: nat) { b.isFree && b.size >= n }

  /** The first block from position `k` on that fits. */
  function FirstFit(s: seq<Block>, k: nat, n: nat): (r: Option<nat>)
    requires k <= |s|
    ensures r.Some? ==> k <= r.value < |s| && Fits(s[r.value], n)
    ensures r.Some? ==> forall j :: k <= j < r.value ==> !Fits(s[j], n)
    ensures r.None? ==> forall j :: k <= j < |s| ==> !Fits(s[j], n)
    decreases |s| - k
  {
    if k == |s| then None else if Fits(s[k], n) then Some(k) else FirstFit(s, k + 1, n)
  }

  predicate Splits(b: Block, n: nat) { b.size - n > HEADER + HEAP_ALIGN }

  /** What is left of a block behind the `n` bytes it keeps. */
  function Rest(b: Block, n: nat): Block
    requires Splits(b, n)
  {
    Block(b.base + HEADER + n, b.size - n - HEADER, true)
  }

  function Split(s: seq<Block>, k: nat, n: nat): seq<Block>
    requires k < |s|
  {
    if Splits(s[k], n) then Insert(s[k := s[k].(size := n)], k + 1, Rest(s[k], n)) else s
  }

  function SetFree(s: seq<Block>, k: nat, free: bool): seq<Block>
    requires k < |s|
  {
    s[k := s[k].(isFree := free)]
  }

  function Bump(n: U32): U32 { (n + 1) % U32_LIMIT }

  /** kmalloc, with the payload offset it returns. */
  function Malloc(h: Heap, size: U64): (r: (Heap, Option<nat>)) {
    if size == 0 then (h, None)
    else match FirstFit(h.blocks, 0, RoundUp(size))
      case None => (h, None)
      case Some(k) =>
        var s := Split(h.blocks, k, RoundUp(size));
        (Heap(SetFree(s, k, false), Charged(h.stats, s[k].size, |s| - |h.blocks|)), Some(s[k].base + HEADER))
  }

  /** The counters after an allocation of `size` bytes that added `split` blocks, on 64-bit words. */
  function Charged(st: Stats, size: nat, split: int): Stats {
    st.(used := (st.used + size) % U64_LIMIT, free := (st.free - size) % U64_LIMIT,
        allocs := Bump(st.allocs), blocks := st.blocks + split)
  }

  /** The counters after `size` bytes came back and `merged` blocks disappeared. */
  function Refunded(st: Stats, size: nat, merged: int): Stats {
    st.(used := (st.used - size) % U64_LIMIT, free := (st.free + size) % U64_LIMIT,
        frees := Bump(st.frees), blocks := st.blocks - merged)
  }

  predicate BothFree(s: seq<Block>, k: int) {
    0 <= k < |s| - 1 && s[k].isFree && s[k + 1].isFree
  }

  /** Block `k` absorbs its successor, header included, when both are free. */
  function AbsorbAt(s: seq<Block>, k: int): seq<Block> {
    if BothFree(s, k) then Remove(s[k := s[k].(size := s[k].size + HEADER + s[k + 1].size)], k + 1) else s
  }

  /** The chain after block `k` is marked free: coalesce looks forward first, then back. */
  function Coalesced(s: seq<Block>, k: nat): seq<Block>
    requires k < |s|
  {
    AbsorbAt(AbsorbAt(s, k), k - 1)
  }

  /** The position of the used block whose payload starts at `ptr`. */
  function FindUsed(s: seq<Block>, k: nat, ptr: nat): (r: Option<nat>)
    requires k <= |s|
    ensures r.Some? ==> k <= r.value < |s| && !s[r.value].isFree && s[r.value].base + HEADER == ptr
    ensures r.None? ==> forall j :: k <= j < |s| ==> s[j].isFree || s[j].base + HEADER != ptr
    decreases |s| - k
  {
    if k == |s| then None
    else if !s[k].isFree && s[k].base + HEADER == ptr then Some(k) else FindUsed(s, k + 1, ptr)
  }

  /** kfree of a live pointer; None stands for a pointer that is not live. */
  function Free(h: Heap, ptr: nat): (r: Option<Heap>) {
    match FindUsed(h.blocks, 0, ptr)
    case None => None
    case Some(k) =>
      var s := Coalesced(SetFree(h.blocks, k, true), k);
      Some(Heap(s, Refunded(h.stats, h.blocks[k].size, |h.blocks| - |s|)))
  }

  /** heap_init */
  function Fresh(): Heap {
    Heap([Block(0, FULL, true)], Stats(FULL, 0, FULL, 0, 0, 1))
  }

  // ---------- the invariant ----------

  predicate Meets(s: seq<Block>, i: nat)
    requires i < |s|
  {
    (if i + 1 < |s| then s[i + 1].base else POOL_SIZE) == Next(s[i])
  }

  /** Header to header without a gap, from the start of the pool to its end. */
  ghost predicate Tiles(s: seq<Block>) {
    && |s| > 0 && s[0].base == 0
    && (forall i :: 0 <= i < |s| ==> Meets(s, i))
  }

  ghost predicate AllAligned(s: seq<Block>) {
    forall i :: 0 <= i < |s| ==> s[i].base % HEAP_ALIGN == 0 && s[i].size % HEAP_ALIGN == 0
  }

  /** No two neighbours are free, except perhaps across the boundaries of block `k`. */
  ghost predicate NoFreePairBut(s: seq<Block>, k: int) {
    forall i :: 0 <= i && i != k && i != k - 1 ==> !BothFree(s, i)
  }

  ghost predicate NoFreePair(s: seq<Block>) {
    forall i :: 0 <= i ==> !BothFree(s, i)
  }

  /** The bytes of the first `n` blocks that are free, or that are used. */
  function Bytes(s: seq<Block>, n: nat, free: bool): nat
    requires n <= |s|
  {
    if n == 0 then 0 else Bytes(s, n - 1, free) + (if s[n - 1].isFree == free then s[n - 1].size else 0)
  }

  ghost predicate StatsOk(h: Heap) {
    && h.stats.total == FULL && h.stats.blocks == |h.blocks|
    && h.stats.used == Bytes(h.blocks, |h.blocks|, false)
    && h.stats.free == Bytes(h.blocks, |h.blocks|, true) + HEADER * (|h.blocks| - 1)
  }

  ghost predicate Inv(h: Heap) {
    && Tiles(h.blocks) && AllAligned(h.blocks) && NoFreePair(h.blocks) && StatsOk(h)
  }

  // ---------- order and sums ----------

  lemma {:induction false} Ordered(s: seq<Block>, i: nat, j: nat)
    requires Tiles(s) && i < j < |s|
    ensures Next(s[i]) <= s[j].base
  {
    assert Meets(s, j - 1);
    if i < j - 1 {
      Ordered(s, i, j - 1);
    }
  }

  lemma {:induction false} InsidePool(s: seq<Block>, i: nat)
    requires Tiles(s) && i < |s|
    ensures Next(s[i]) <= POOL_SIZE
    decreases |s| - i
  {
    assert Meets(s, i);
    if i + 1 < |s| {
      InsidePool(s, i + 1);
    }
  }

  lemma {:induction false} BytesUpdate(s: seq<Block>, k: nat, b: Block, n: nat, free: bool)
    requires k < |s| && n <= |s|
    ensures Bytes(s[k := b], n, free)
            == Bytes(s, n, free)
               + (if k < n && b.isFree == free then b.size else 0)
               - (if k < n && s[k].isFree == free then s[k].size else 0)
  {
    if n > 0 {
      BytesUpdate(s, k, b, n - 1, free);
    }
  }

  lemma {:induction false} BytesInsert(s: seq<Block>, k: nat, b: Block, n: nat, free: bool)
    requires k <= |s| && n <= |s|
    ensures n <= k ==> Bytes(Insert(s, k, b), n, free) == Bytes(s, n, free)
    ensures n >= k ==> Bytes(Insert(s, k, b), n + 1, free) == Bytes(s, n, free) + (if b.isFree == free then b.size else 0)
  {
    if n > 0 {
      BytesInsert(s, k, b, n - 1, free);
    }
  }

  lemma {:induction false} BytesRemove(s: seq<Block>, k: nat, n: nat, free: bool)
    requires k < |s| && n < |s|
    ensures n <= k ==> Bytes(Remove(s, k), n, free) == Bytes(s, n, free)
    ensures n >= k ==> Bytes(Remove(s, k), n, free) == Bytes(s, n + 1, free) - (if s[k].isFree == free then s[k].size else 0)
  {
    if n > 0 {
      BytesRemove(s, k, n - 1, free);
    }
  }

  /** The sizes and the headers fill the pool. */
  lemma {:induction false} BytesFill(s: seq<Block>, n: nat)
    requires Tiles(s) && n <= |s|
    ensures Bytes(s, n, true) + Bytes(s, n, false) + HEADER * n == if n < |s| then s[n].base else POOL_SIZE
  {
    if n > 0 {
      BytesFill(s, n - 1);
      assert Meets(s, n - 1);
    }
  }

  // ---------- splitting ----------

  lemma SplitTiles(s: seq<Block>, k: nat, n: nat)
    requires Tiles(s) && AllAligned(s) && k < |s| && n % HEAP_ALIGN == 0
    ensures Tiles(Split(s, k, n)) && AllAligned(Split(s, k, n))
  {
    var t := Split(s, k, n);
    if Splits(s[k], n) {
      forall i | 0 <= i < |t| ensures Meets(t, i) {
        assert i < k ==> Meets(s, i);
        assert i > k ==> Meets(s, i - 1);
      }
    }
  }

  lemma SplitBytes(s: seq<Block>, k: nat, n: nat)
    requires k < |s| && s[k].isFree && n <= s[k].size
    ensures var t := Split(s, k, n);
            && Bytes(t, |t|, false) == Bytes(s, |s|, false)
            && Bytes(t, |t|, true) + HEADER * |t| == Bytes(s, |s|, true) + HEADER * |s|
  {
    if Splits(s[k], n) {
      var s1 := s[k := s[k].(size := n)];
      BytesUpdate(s, k, s1[k], |s|, true);
      BytesUpdate(s, k, s1[k], |s|, false);
      BytesInsert(s1, k + 1, Rest(s[k], n), |s1|, true);
      BytesInsert(s1, k + 1, Rest(s[k], n), |s1|, false);
    }
  }

  lemma SplitApart(s: seq<Block>, k: nat, n: nat)
    requires NoFreePair(s) && k < |s| && s[k].isFree
    ensures NoFreePair(SetFree(Split(s, k, n), k, false))
  {
    var t := SetFree(Split(s, k, n), k, false);
    if Splits(s[k], n) {
      forall i: int | 0 <= i ensures !BothFree(t, i) {
        if i < k - 1 {
          assert !BothFree(s, i);
        } else if i > k {
          assert !BothFree(s, i - 1);
        }
      }
    } else {
      forall i: int | 0 <= i ensures !BothFree(t, i) {
        assert !BothFree(s, i);
      }
    }
  }

  lemma SetFreeKeeps(s: seq<Block>, k: nat, free: bool)
    requires Tiles(s) && AllAligned(s) && k < |s|
    ensures Tiles(SetFree(s, k, free)) && AllAligned(SetFree(s, k, free))
  {
    var t := SetFree(s, k, free);
    forall i | 0 <= i < |t| ensures Meets(t, i) {
      assert Meets(s, i);
    }
  }

  /** Within the pool no counter wraps. */
  lemma ChargedIs(st: Stats, size: nat, split: int)
    requires size <= st.free && st.used + st.free <= POOL_SIZE
    ensures var r := Charged(st, size, split);
            r.used == st.used + size && r.free == st.free - size && r.blocks == st.blocks + split && r.total == st.total
  {
  }

  lemma RefundedIs(st: Stats, size: nat, merged: int)
    requires size <= st.used && st.used + st.free <= POOL_SIZE
    ensures var r := Refunded(st, size, merged);
            r.used == st.used - size && r.free == st.free + size && r.blocks == st.blocks - merged && r.total == st.total
  {
  }

  lemma MallocKeepsInv(h: Heap, size: U64)
    requires Inv(h)
    ensures Inv(Malloc(h, size).0)
  {
    hide Charged, Tiles, AllAligned, NoFreePair, Splits;
    var n := RoundUp(size);
    var fit := FirstFit(h.blocks, 0, n);
    if size != 0 && fit.Some? {
      var k := fit.value;
      var s := Split(h.blocks, k, n);
      SplitTiles(h.blocks, k, n);
      SplitBytes(h.blocks, k, n);
      SplitApart(h.blocks, k, n);
      SetFreeKeeps(s, k, false);
      BytesUpdate(s, k, s[k].(isFree := false), |s|, true);
      BytesUpdate(s, k, s[k].(isFree := false), |s|, false);
      AtMost(s, k, |s|);
      BytesFill(h.blocks, |h.blocks|);
      ChargedIs(h.stats, s[k].size, |s| - |h.blocks|);
    }
  }

  lemma {:induction false} AtMost(s: seq<Block>, k: nat, n: nat)
    requires k < n <= |s|
    ensures s[k].size <= Bytes(s, n, s[k].isFree)
  {
    if k < n - 1 {
      AtMost(s, k, n - 1);
    }
  }

  // ---------- merging ----------

  lemma MergeTiles(s: seq<Block>, k: int)
    requires Tiles(s) && AllAligned(s)
    ensures Tiles(AbsorbAt(s, k)) && AllAligned(AbsorbAt(s, k))
  {
    var t := AbsorbAt(s, k);
    if BothFree(s, k) {
      assert Meets(s, k) && Meets(s, k + 1);
      forall i | 0 <= i < |t| ensures Meets(t, i) {
        assert i < k ==> Meets(s, i);
        assert i > k ==> Meets(s, i + 1);
      }
    }
  }

  lemma MergedBytes(s: seq<Block>, k: nat, free: bool)
    requires BothFree(s, k)
    ensures var t := AbsorbAt(s, k); |t| == |s| - 1 && Bytes(t, |t|, free) == Bytes(s, |s|, free) + (if free then HEADER else 0)
  {
    var b := s[k].(size := s[k].size + HEADER + s[k + 1].size);
    BytesUpdate(s, k, b, |s|, free);
    BytesRemove(s[k := b], k + 1, |s| - 1, free);
  }

  lemma MergeBytes(s: seq<Block>, k: int)
    ensures var t := AbsorbAt(s, k);
            && Bytes(t, |t|, false) == Bytes(s, |s|, false)
            && Bytes(t, |t|, true) + HEADER * |t| == Bytes(s, |s|, true) + HEADER * |s|
  {
    if BothFree(s, k) {
      MergedBytes(s, k, true);
      MergedBytes(s, k, false);
    }
  }

  /** After the forward merge only the boundary before block `k` is in doubt. */
  lemma MergeNextApart(s: seq<Block>, k: nat)
    requires NoFreePairBut(s, k) && k < |s|
    ensures k < |AbsorbAt(s, k)| && forall i :: 0 <= i && i != k - 1 ==> !BothFree(AbsorbAt(s, k), i)
  {
    var t := AbsorbAt(s, k);
    forall i: int | 0 <= i && i != k - 1 ensures !BothFree(t, i) {
      if BothFree(s, k) {
        if i < k {
          assert !BothFree(s, i);
        } else {
          assert !BothFree(s, i + 1);
        }
      } else {
        assert !BothFree(s, i);
      }
    }
  }

  lemma MergePrevApart(s: seq<Block>, k: int)
    requires forall i :: 0 <= i && i != k ==> !BothFree(s, i)
    ensures NoFreePair(AbsorbAt(s, k))
  {
    var t := AbsorbAt(s, k);
    forall i: int | 0 <= i ensures !BothFree(t, i) {
      if BothFree(s, k) {
        if i < k {
          assert !BothFree(s, i);
        } else {
          assert !BothFree(s, i + 1);
        }
      } else {
        assert !BothFree(s, i);
      }
    }
  }

  /** Marking block `k` free moves its bytes from one sum to the other. */
  lemma ReturnedBytes(s: seq<Block>, k: nat)
    requires k < |s| && !s[k].isFree
    ensures var t := Coalesced(SetFree(s, k, true), k);
            && Bytes(t, |t|, false) == Bytes(s, |s|, false) - s[k].size
            && Bytes(t, |t|, true) + HEADER * |t| == Bytes(s, |s|, true) + s[k].size + HEADER * |s|
  {
    hide AbsorbAt;
    var s1 := SetFree(s, k, true);
    BytesUpdate(s, k, s1[k], |s1|, true);
    BytesUpdate(s, k, s1[k], |s1|, false);
    MergeBytes(s1, k);
    MergeBytes(AbsorbAt(s1, k), k as int - 1);
  }

  lemma ReturnedShape(s: seq<Block>, k: nat)
    requires Tiles(s) && AllAligned(s) && NoFreePair(s) && k < |s|
    ensures var t := Coalesced(SetFree(s, k, true), k); Tiles(t) && AllAligned(t) && NoFreePair(t)
  {
    hide Tiles, AllAligned, NoFreePair, NoFreePairBut, BothFree, AbsorbAt;
    var s1 := SetFree(s, k, true);
    var s2 := AbsorbAt(s1, k);
    SetFreeKeeps(s, k, true);
    MergeTiles(s1, k);
    MergeTiles(s2, k as int - 1);
    FreedApart(s, k);
    MergeNextApart(s1, k);
    MergePrevApart(s2, k as int - 1);
  }

  lemma FreeKeepsInv(h: Heap, ptr: nat)
    requires Inv(h) && Free(h, ptr).Some?
    ensures Inv(Free(h, ptr).value)
  {
    hide Refunded, AllAligned, NoFreePair, Coalesced, Bytes;
    var k := FindUsed(h.blocks, 0, ptr).value;
    var t := Coalesced(SetFree(h.blocks, k, true), k);
    BytesFill(h.blocks, |h.blocks|);
    AtMost(h.blocks, k, |h.blocks|);
    ReturnedBytes(h.blocks, k);
    ReturnedShape(h.blocks, k);
    RefundedIs(h.stats, h.blocks[k].size, |h.blocks| - |t|);
  }

  lemma FreedApart(s: seq<Block>, k: nat)
    requires NoFreePair(s) && k < |s|
    ensures NoFreePairBut(SetFree(s, k, true), k)
  {
    var t := SetFree(s, k, true);
    forall i: int | 0 <= i && i != k && i != k - 1 ensures !BothFree(t, i) {
      assert !BothFree(s, i);
    }
  }
}
