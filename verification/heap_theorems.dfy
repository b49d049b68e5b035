/** What holds of the kernel heap over every run of kmalloc and kfree on live pointers. */
module HeapTheorems {
  import opened Types
  import opened LinkedList
  import opened FreeBlocks
  import opened HeapSpec

  datatype Op = MallocOp(size: U64) | FreeOp(ptr: nat)

  /** Only live pointers are freed; anything else is a kernel panic. */
  predicate Legal(h: Heap, op: Op) {
    op.FreeOp? ==> Free(h, op.ptr).Some?
  }

  function Step(h: Heap, op: Op): Heap
    requires Legal(h, op)
  {
    match op
    case MallocOp(size) => Malloc(h, size).0
    case FreeOp(ptr) => Free(h, ptr).value
  }

  predicate LegalRun(h: Heap, ops: seq<Op>)
    decreases |ops|
  {
    ops == [] || (Legal(h, ops[0]) && LegalRun(Step(h, ops[0]), ops[1..]))
  }

  function Run(h: Heap, ops: seq<Op>): Heap
    requires LegalRun(h, ops)
    decreases |ops|
  {
    if ops == [] then h else Run(Step(h, ops[0]), ops[1..])
  }

  lemma FreshInv()
    ensures Inv(Fresh())
  {
    var s := Fresh().blocks;
    assert Meets(s, 0);
    assert Bytes(s, 1, true) == FULL && Bytes(s, 1, false) == 0;
  }

  /** Heap tiling, over every legal run. */
  lemma {:induction false} RunKeepsInv(h: Heap, ops: seq<Op>)
    requires Inv(h) && LegalRun(h, ops)
    ensures Inv(Run(h, ops))
    decreases |ops|
  {
    hide Inv, Malloc, Free;
    if ops != [] {
      match ops[0] {
        case MallocOp(size) => MallocKeepsInv(h, size);
        case FreeOp(ptr) => FreeKeepsInv(h, ptr);
      }
      RunKeepsInv(Step(h, ops[0]), ops[1..]);
    }
  }

  /** Used and free bytes together are the pool without its first header. */
  lemma Conserved(h: Heap)
    requires Inv(h)
    ensures h.stats.used + h.stats.free == h.stats.total
    ensures h.stats.free == Bytes(h.blocks, |h.blocks|, true) <==> h.stats.blocks == 1
  {
    BytesFill(h.blocks, |h.blocks|);
  }

  /** Two live payloads never overlap, and none reaches a header or leaves the pool. */
  lemma PayloadsApart(h: Heap, i: nat, j: nat)
    requires Inv(h) && i < j < |h.blocks|
    ensures h.blocks[i].base + HEADER + h.blocks[i].size <= h.blocks[j].base
    ensures h.blocks[j].base + HEADER + h.blocks[j].size <= POOL_SIZE
    ensures (h.blocks[i].base + HEADER) % HEAP_ALIGN == 0
  {
    Ordered(h.blocks, i, j);
    InsidePool(h.blocks, j);
  }

  /** kmalloc fails exactly when the request is empty or no free block is large enough. */
  lemma MallocFails(h: Heap, size: U64)
    ensures Malloc(h, size).1.None?
            <==> size == 0 || forall i :: 0 <= i < |h.blocks| ==> !(h.blocks[i].isFree && h.blocks[i].size >= RoundUp(size))
    ensures Malloc(h, size).1.None? ==> Malloc(h, size).0 == h
  {
    hide Split;
  }

  /**
   What kmalloc returns: an aligned block that was free, now used, at the first place that fits. The block is cut down
   to the rounded request exactly when more than a header and 16 bytes would be left over, and given whole otherwise.
   */
  lemma MallocReturns(h: Heap, size: U64)
    requires Inv(h) && Malloc(h, size).1.Some?
    ensures var (h', p) := Malloc(h, size); var k := FindUsed(h'.blocks, 0, p.value);
            && p.value % HEAP_ALIGN == 0
            && k.Some? && k.value < |h.blocks|
            && Fits(h.blocks[k.value], RoundUp(size)) && h.blocks[k.value].base == h'.blocks[k.value].base
            && (forall j :: 0 <= j < k.value ==> !Fits(h.blocks[j], RoundUp(size)) && h'.blocks[j] == h.blocks[j])
            && (size <= h'.blocks[k.value].size <==> size <= U64_LIMIT - HEAP_ALIGN)
            && (h'.blocks[k.value].size == RoundUp(size) || h'.blocks[k.value].size == h.blocks[k.value].size)
            && (h'.blocks[k.value].size < h.blocks[k.value].size <==> h.blocks[k.value].size > RoundUp(size) + 48)
            && h'.stats.allocs == (h.stats.allocs + 1) % U32_LIMIT && h'.stats.frees == h.stats.frees
  {
    var n := RoundUp(size);
    var k := FirstFit(h.blocks, 0, n).value;
    var (h', p) := Malloc(h, size);
    MallocKeepsInv(h, size);
    FoundAt(h'.blocks, k);
    InsidePool(h'.blocks, k);
    assert h'.blocks[k].size == n || h'.blocks[k].size == h.blocks[k].size;
  }

  lemma FoundAt(s: seq<Block>, k: nat)
    requires Tiles(s) && k < |s| && !s[k].isFree
    ensures FindUsed(s, 0, s[k].base + HEADER) == Some(k)
  {
    var r := FindUsed(s, 0, s[k].base + HEADER);
    assert r.Some?;
    if r.value < k {
      Ordered(s, r.value, k);
    } else if r.value > k {
      Ordered(s, k, r.value);
    }
  }

  // ---------- the chain is determined by what is live ----------

  ghost function UsedBlocks(s: seq<Block>): set<Block> {
    set b | b in s && !b.isFree
  }

  lemma SameBaseSamePlace(s: seq<Block>, i: nat, j: nat)
    requires Tiles(s) && i < |s| && j < |s| && s[i].base == s[j].base
    ensures i == j
  {
    if i < j {
      Ordered(s, i, j);
    } else if j < i {
      Ordered(s, j, i);
    }
  }

  /** A used block of one chain sits at the same place in the other, if that place starts alike. */
  lemma UsedAgrees(s: seq<Block>, t: seq<Block>, i: nat)
    requires Tiles(t) && UsedBlocks(s) <= UsedBlocks(t) && i < |s| && i < |t|
    requires s[i].base == t[i].base && !s[i].isFree
    ensures s[i] == t[i]
  {
    assert s[i] in UsedBlocks(s);
    var j :| 0 <= j < |t| && t[j] == s[i];
    SameBaseSamePlace(t, i, j);
  }

  /** A free gap of one chain does not end before that of the other. */
  lemma GapAtLeast(s: seq<Block>, t: seq<Block>, i: nat)
    requires Tiles(s) && NoFreePair(s) && Tiles(t) && UsedBlocks(s) <= UsedBlocks(t) && i < |s| && i < |t|
    requires s[i].base == t[i].base && s[i].isFree && t[i].isFree
    ensures s[i].size >= t[i].size
  {
    if s[i].size < t[i].size {
      InsidePool(t, i);
      assert Meets(s, i) && !BothFree(s, i);
      assert s[i + 1] in UsedBlocks(s);
      var j :| 0 <= j < |t| && t[j] == s[i + 1];
      if j < i {
        Ordered(t, j, i);
      } else if i < j {
        Ordered(t, i, j);
      }
      assert false;
    }
  }

  lemma BlockAgrees(s: seq<Block>, t: seq<Block>, i: nat)
    requires Tiles(s) && NoFreePair(s) && Tiles(t) && NoFreePair(t) && UsedBlocks(s) == UsedBlocks(t) && i < |s| && i < |t|
    requires s[i].base == t[i].base
    ensures s[i] == t[i]
  {
    if !s[i].isFree {
      UsedAgrees(s, t, i);
    } else if !t[i].isFree {
      UsedAgrees(t, s, i);
    } else {
      GapAtLeast(s, t, i);
      GapAtLeast(t, s, i);
    }
  }

  lemma {:induction false} PrefixAgrees(s: seq<Block>, t: seq<Block>, n: nat)
    requires Tiles(s) && NoFreePair(s) && Tiles(t) && NoFreePair(t) && UsedBlocks(s) == UsedBlocks(t)
    requires n <= |s|
    ensures n <= |t| && s[..n] == t[..n]
  {
    hide NoFreePair, Meets;
    if n > 0 {
      PrefixAgrees(s, t, n - 1);
      StartAgrees(s, t, n - 1);
      BlockAgrees(s, t, n - 1);
      assert s[..n] == s[..n - 1] + [s[n - 1]] && t[..n] == t[..n - 1] + [t[n - 1]];
    }
  }

  /** When the first `n` blocks agree, block `n` exists in both and starts at the same place. */
  lemma StartAgrees(s: seq<Block>, t: seq<Block>, n: nat)
    requires Tiles(s) && Tiles(t) && n < |s| && n <= |t| && s[..n] == t[..n]
    ensures n < |t| && s[n].base == t[n].base
  {
    if n > 0 {
      assert Meets(s, n - 1) && Meets(t, n - 1);
      assert s[..n][n - 1] == t[..n][n - 1];
      InsidePool(s, n);
    }
  }

  /** Two sound heaps with the same live blocks have the same chain. */
  lemma SameLiveSameChain(g: Heap, h: Heap)
    requires Inv(g) && Inv(h) && UsedBlocks(g.blocks) == UsedBlocks(h.blocks)
    ensures g.blocks == h.blocks
  {
    PrefixAgrees(g.blocks, h.blocks, |g.blocks|);
    PrefixAgrees(h.blocks, g.blocks, |h.blocks|);
  }

  /** History independence: runs that end with the same live blocks end with the same chain. */
  lemma HistoryIndependent(ops: seq<Op>, ops': seq<Op>)
    requires LegalRun(Fresh(), ops) && LegalRun(Fresh(), ops')
    requires UsedBlocks(Run(Fresh(), ops).blocks) == UsedBlocks(Run(Fresh(), ops').blocks)
    ensures Run(Fresh(), ops).blocks == Run(Fresh(), ops').blocks
  {
    hide Run, LegalRun;
    FreshInv();
    RunKeepsInv(Fresh(), ops);
    RunKeepsInv(Fresh(), ops');
    SameLiveSameChain(Run(Fresh(), ops), Run(Fresh(), ops'));
  }

  /** Freeing everything leaves one block that fills the pool. */
  lemma AllFreedIsFresh(ops: seq<Op>)
    requires LegalRun(Fresh(), ops)
    requires forall i :: 0 <= i < |Run(Fresh(), ops).blocks| ==> Run(Fresh(), ops).blocks[i].isFree
    ensures Run(Fresh(), ops).blocks == [Block(0, FULL, true)]
    ensures Run(Fresh(), ops).stats.used == 0 && Run(Fresh(), ops).stats.free == FULL
  {
    hide Run, LegalRun;
    var h := Run(Fresh(), ops);
    FreshInv();
    RunKeepsInv(Fresh(), ops);
    assert UsedBlocks(h.blocks) == {} == UsedBlocks(Fresh().blocks);
    SameLiveSameChain(h, Fresh());
    Conserved(h);
    assert Bytes(h.blocks, 1, true) == FULL && Bytes(h.blocks, 1, false) == 0;
  }

  // ---------- what one call does to the live blocks ----------

  lemma UsedSplit(s: seq<Block>, k: nat, n: nat)
    requires k < |s| && s[k].isFree
    ensures UsedBlocks(Split(s, k, n)) == UsedBlocks(s)
  {
    var t := Split(s, k, n);
    if Splits(s[k], n) {
      forall i | 0 <= i < |s| && !s[i].isFree ensures s[i] in t {
        assert t[if i <= k then i else i + 1] == s[i];
      }
      forall i | 0 <= i < |t| && !t[i].isFree ensures t[i] in s {
        assert t[i] == s[if i <= k then i else i - 1];
      }
    }
  }

  lemma UsedMerge(s: seq<Block>, k: int)
    ensures UsedBlocks(AbsorbAt(s, k)) == UsedBlocks(s)
  {
    var t := AbsorbAt(s, k);
    if BothFree(s, k) {
      forall i | 0 <= i < |s| && !s[i].isFree ensures s[i] in t {
        assert t[if i <= k then i else i - 1] == s[i];
      }
      forall i | 0 <= i < |t| && !t[i].isFree ensures t[i] in s {
        assert t[i] == s[if i <= k then i else i + 1];
      }
    }
  }

  lemma UsedTaken(s: seq<Block>, k: nat)
    requires k < |s| && s[k].isFree
    ensures UsedBlocks(SetFree(s, k, false)) == UsedBlocks(s) + {s[k].(isFree := false)}
  {
    var t := SetFree(s, k, false);
    assert t[k] in t;
    forall i | 0 <= i < |s| && !s[i].isFree ensures s[i] in t {
      assert t[i] == s[i];
    }
  }

  lemma UsedReturned(s: seq<Block>, k: nat)
    requires Tiles(s) && k < |s| && !s[k].isFree
    ensures UsedBlocks(SetFree(s, k, true)) == UsedBlocks(s) - {s[k]}
  {
    var t := SetFree(s, k, true);
    forall i | 0 <= i < |s| && !s[i].isFree && s[i] != s[k] ensures s[i] in t {
      assert t[i] == s[i];
    }
    forall i | 0 <= i < |t| && !t[i].isFree ensures t[i] in s && t[i] != s[k] {
      if s[i].base == s[k].base {
        SameBaseSamePlace(s, i, k);
      }
    }
  }

  /** A successful kmalloc adds exactly one live block, and it was not live before. */
  lemma MallocAdds(h: Heap, size: U64) returns (b: Block)
    requires Inv(h) && Malloc(h, size).1.Some?
    ensures b.base + HEADER == Malloc(h, size).1.value && !b.isFree && b !in UsedBlocks(h.blocks)
    ensures UsedBlocks(Malloc(h, size).0.blocks) == UsedBlocks(h.blocks) + {b}
  {
    var k := FirstFit(h.blocks, 0, RoundUp(size)).value;
    var s := Split(h.blocks, k, RoundUp(size));
    b := s[k].(isFree := false);
    UsedSplit(h.blocks, k, RoundUp(size));
    UsedTaken(s, k);
    if b in UsedBlocks(h.blocks) {
      var j :| 0 <= j < |h.blocks| && h.blocks[j] == b;
      SameBaseSamePlace(h.blocks, j, k);
    }
  }

  /** kfree takes exactly the block of its pointer out of the live ones. */
  lemma FreeDrops(h: Heap, ptr: nat, b: Block)
    requires Inv(h) && b in UsedBlocks(h.blocks) && b.base + HEADER == ptr
    ensures Free(h, ptr).Some? && UsedBlocks(Free(h, ptr).value.blocks) == UsedBlocks(h.blocks) - {b}
    ensures var st := Free(h, ptr).value.stats; st.frees == (h.stats.frees + 1) % U32_LIMIT && st.allocs == h.stats.allocs
  {
    var k: int :| 0 <= k < |h.blocks| && h.blocks[k] == b;
    FoundAt(h.blocks, k);
    var s := SetFree(h.blocks, k, true);
    UsedReturned(h.blocks, k);
    UsedMerge(s, k);
    UsedMerge(AbsorbAt(s, k), k - 1);
  }

  /** kmalloc followed by kfree of its result restores the chain exactly. */
  lemma MallocThenFree(h: Heap, size: U64)
    requires Inv(h) && Malloc(h, size).1.Some?
    ensures var (h', p) := Malloc(h, size);
            Free(h', p.value).Some? && Free(h', p.value).value.blocks == h.blocks
  {
    hide Inv, Malloc, Free;
    var (h', p) := Malloc(h, size);
    var b := MallocAdds(h, size);
    MallocKeepsInv(h, size);
    FreeDrops(h', p.value, b);
    FreeKeepsInv(h', p.value);
    SameLiveSameChain(Free(h', p.value).value, h);
  }

  /** A pointer that was freed is not live any more: freeing it again is a panic. */
  lemma DoubleFreePanics(h: Heap, ptr: nat)
    requires Inv(h) && Free(h, ptr).Some?
    ensures Free(Free(h, ptr).value, ptr).None?
  {
    var k := FindUsed(h.blocks, 0, ptr).value;
    var h' := Free(h, ptr).value;
    FreeDrops(h, ptr, h.blocks[k]);
    var again := FindUsed(h'.blocks, 0, ptr);
    if again.Some? {
      assert h'.blocks[again.value] in UsedBlocks(h'.blocks);
      var j :| 0 <= j < |h.blocks| && h.blocks[j] == h'.blocks[again.value];
      SameBaseSamePlace(h.blocks, j, k);
      assert false;
    }
  }

  /** A request within fifteen bytes of 2^64 is rounded to nothing and still served. */
  lemma WrappedRequest(size: U64)
    requires size > U64_LIMIT - HEAP_ALIGN
    ensures Malloc(Fresh(), size).1 == Some(HEADER)
    ensures Malloc(Fresh(), size).0.blocks[0] == Block(0, 0, false)
  {
    var s := Fresh().blocks;
    assert RoundUp(size) == 0;
    assert FirstFit(s, 0, 0) == Some(0);
  }
}
