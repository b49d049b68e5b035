/**
 The tensor memory manager as the source runs it: descriptors from a static pool, one intrusive
 free list per region, a tensor table with swap-with-last deletion. Every call is proved to do
 to its abstract state exactly what the state machine of TensorSpec says.
 */
module TensorMM {
  import opened Types
  import opened LinkedList
  import opened FreeBlocks
  import opened Alignment
  import opened TensorSpec
  import opened TensorProofs
  import opened TensorTheorems

  /** The insertion point is pinned down by the bases around it. */
  lemma {:induction false} InsertPosIs(s: seq<Block>, base: nat, p: nat)
    requires p <= |s|
    requires forall j :: 0 <= j < p ==> s[j].base <= base
    requires p < |s| ==> base < s[p].base
    ensures InsertPos(s, base) == p
  {
    if p > 0 {
      assert s[0].base <= base;
      InsertPosIs(s[1..], base, p - 1);
    }
  }

  lemma UpdateTwice(s: seq<seq<Block>>, r: nat, a: seq<Block>, b: seq<Block>)
    requires r < |s|
    ensures s[r := a][r := b] == s[r := b] && s[r := a][r] == a
  {
  }

  function TailOf(b: Block, prefix: nat): Block
    requires prefix <= b.size
  {
    Block(b.base + prefix, b.size - prefix, b.isFree)
  }

  /** The list after the prefix split of block `k`; the block itself moves one position back. */
  function PrefixSplit(s: seq<Block>, k: nat, prefix: nat): seq<Block>
    requires k < |s| && prefix <= s[k].size
  {
    if prefix > 0 then Insert(s[k := TailOf(s[k], prefix)], k, PrefixOf(s[k], prefix)) else s
  }

  function Behind(k: nat, prefix: nat): nat { if prefix > 0 then k + 1 else k }

  /** The list after the remainder split of block `k`, which keeps `taken` bytes. */
  function RemainderSplit(s: seq<Block>, k: nat, taken: nat): seq<Block>
    requires k < |s| && taken <= s[k].size
  {
    if taken < s[k].size then Insert(s[k := s[k].(size := taken)], k + 1, RemainderOf(s[k], taken)) else s
  }

  lemma RemoveBehindInsert(s: seq<Block>, k: nat, tail: Block, x: Block)
    requires k < |s|
    ensures Remove(Insert(s[k := tail], k, x), k + 1) == Insert(Remove(s, k), k, x)
  {
  }

  lemma RemoveBeforeInsert(s: seq<Block>, k: nat, y: Block, x: Block)
    requires k < |s|
    ensures Remove(Insert(s[k := y], k + 1, x), k) == Insert(Remove(s, k), k, x)
  {
  }

  lemma InsertTwice(s: seq<Block>, k: nat, x: Block, y: Block)
    requires k <= |s|
    ensures Insert(Insert(s, k, x), k + 1, y) == Insert(Insert(s, k, y), k, x)
  {
  }

  /** Cutting a block in place, split by split, is the carving of FreeBlocks. */
  lemma SplitsAreCarve(s: seq<Block>, k: nat, prefix: nat, taken: nat)
    requires k < |s| && prefix + taken <= s[k].size
    ensures var s1, k1 := PrefixSplit(s, k, prefix), Behind(k, prefix);
            && k1 < |s1| && s1[k1] == TailOf(s[k], prefix)
            && Remove(RemainderSplit(s1, k1, taken), k1) == Carve(s, k, prefix, taken)
  {
    var tail := TailOf(s[k], prefix);
    var pre, rem := PrefixOf(s[k], prefix), RemainderOf(s[k], prefix + taken);
    RemoveBehindInsert(s, k, tail, pre);
    if prefix > 0 {
      RemoveBeforeInsert(Insert(s[k := tail], k, pre), k + 1, tail.(size := taken), rem);
      InsertTwice(Remove(s, k), k, pre, rem);
    } else {
      RemoveBeforeInsert(s, k, tail.(size := taken), rem);
    }
  }

  /** The prefix of a split goes right before the block it was cut from. */
  lemma PrefixPosition(s: seq<Block>, k: nat, prefix: nat)
    requires Normal(s) && k < |s| && 0 < prefix < s[k].size
    ensures var s1 := s[k := TailOf(s[k], prefix)];
            && InsertPos(s1, s[k].base) == k
            && (forall j :: 0 <= j < |s1| ==> s1[j].base != s[k].base)
  {
    var s1 := s[k := TailOf(s[k], prefix)];
    forall j | 0 <= j < |s1| ensures j < k ==> s1[j].base < s[k].base ensures j >= k ==> s1[j].base > s[k].base {
      assert j < k ==> Gap(s[j], s[k]);
      assert j > k ==> Gap(s[k], s[j]);
    }
    InsertPosIs(s1, s[k].base, k);
  }

  /** The remainder of a split goes right behind the block it was cut from. */
  lemma RemainderPosition(s: seq<Block>, k: nat, size: nat)
    requires k < |s| && 0 < size < s[k].size
    requires forall j :: 0 <= j < k ==> s[j].base < s[k].base
    requires forall j :: k < j < |s| ==> Gap(s[k], s[j])
    ensures var s1 := s[k := s[k].(size := size)];
            && InsertPos(s1, s[k].base + size) == k + 1
            && (forall j :: 0 <= j < |s1| ==> s1[j].base != s[k].base + size)
  {
    var s1 := s[k := s[k].(size := size)];
    forall j | 0 <= j < |s1|
      ensures j <= k ==> s1[j].base < s[k].base + size
      ensures j > k ==> s1[j].base > s[k].base + size
    {
      assert j > k ==> Gap(s[k], s[j]);
    }
    InsertPosIs(s1, s[k].base + size, k + 1);
  }

  lemma AfterPrefix(s: seq<Block>, k: nat, prefix: nat)
    requires Normal(s) && k < |s| && prefix < s[k].size
    ensures var s1, k1 := PrefixSplit(s, k, prefix), Behind(k, prefix);
            && k1 < |s1| && s1[k1] == TailOf(s[k], prefix)
            && (forall j :: 0 <= j < k1 ==> s1[j].base < s1[k1].base)
            && (forall j :: k1 < j < |s1| ==> Gap(s1[k1], s1[j]))
  {
    var s1, k1 := PrefixSplit(s, k, prefix), Behind(k, prefix);
    forall j | 0 <= j < |s1|
      ensures j < k1 ==> s1[j].base < s1[k1].base
      ensures j > k1 ==> Gap(s1[k1], s1[j])
    {
      assert j < k ==> s1[j] == s[j] && Gap(s[j], s[k]);
      assert j > k1 ==> s1[j] == s[if prefix > 0 then j - 1 else j] && Gap(s[k], s1[j]);
    }
  }

  lemma {:induction false} FindTensorIs(ts: seq<Tensor>, id: nat, i: nat)
    requires i <= |ts| && (forall j :: 0 <= j < i ==> ts[j].id != id) && (i < |ts| ==> ts[i].id == id)
    ensures FindTensor(ts, id) == if i < |ts| then Some(i) else None
  {
  }

  /** No free block starts where a live tensor of the region does. */
  lemma TensorBaseIsFresh(st: State, pools: seq<seq<Block>>, i: nat, j: nat)
    requires Inv(st, pools) && i < |st.tensors| && j < |st.free[st.tensors[i].region]|
    ensures st.free[st.tensors[i].region][j].base != st.tensors[i].base
  {
    var t := st.tensors[i];
    var s := st.free[t.region];
    assert RegionOk(pools[t.region], s, st.tensors, t.region);
    HeldAt(st.tensors, i, t.region, t.base);
    assert !Covers(s, t.base) && !Inside(s[j], t.base);
  }

  class TensorManager {
    const lists: Lists<Block>
    const table: array<Tensor>
    var blockPoolNext: nat
    var tensorCount: nat
    var nextTensorId: nat
    var stats: Stats
    /** The memory handed over at initialisation, region by region. */
    ghost var pools: seq<seq<Block>>

    ghost predicate ListsOk()
      reads this, lists
    {
      && lists.Valid() && |lists.chains| == |lists.contents| == REGIONS
      && (forall r :: 0 <= r < REGIONS ==> |lists.contents[r]| == |lists.chains[r]|)
      && blockPoolNext <= MAX_BLOCKS
      && forall n :: n in lists.cells ==> n < blockPoolNext
    }

    ghost predicate Valid()
      reads this, lists, table
    {
      && ListsOk()
      && table.Length == MAX_TENSORS && tensorCount <= MAX_TENSORS
      && forall i :: 0 <= i < tensorCount ==> table[i].region < REGIONS
    }

    ghost function Abs(): (st: State)
      reads this, lists, table
      requires Valid()
      ensures Shaped(st)
    {
      State(lists.contents, table[..tensorCount], nextTensorId, blockPoolNext, stats)
    }

    /** The zeroed statics of a fresh boot. */
    constructor ()
      ensures Valid() && fresh(lists) && fresh(table)
      ensures Abs() == State(seq(REGIONS, _ => []), [], 1, 0, Stats(0, 0, 0, 0, 0, 0, 0, 0, 0, 0, 0))
    {
      lists := new Lists(REGIONS);
      table := new Tensor[MAX_TENSORS](_ => Tensor(0, 0, 0, 0, ShortTerm, 0));
      blockPoolNext, tensorCount, nextTensorId := 0, 0, 1;
      stats := Stats(0, 0, 0, 0, 0, 0, 0, 0, 0, 0, 0);
      pools := seq(REGIONS, _ => []);
    }

    /** The whole invariant: the concrete structures are sound and the state they spell is. */
    ghost predicate Sound()
      reads this, lists, table
    {
      Valid() && Inv(Abs(), pools)
    }

    /** alloc_block: None when the static pool is used up. */
    method AllocBlock() returns (n: Option<nat>)
      requires ListsOk()
      modifies this`blockPoolNext, lists`cells
      ensures ListsOk() && lists.contents == old(lists.contents)
      ensures n.Some? <==> old(blockPoolNext) < MAX_BLOCKS
      ensures n.None? ==> blockPoolNext == old(blockPoolNext) && lists.cells == old(lists.cells)
      ensures n.Some? ==>
                && blockPoolNext == old(blockPoolNext) + 1
                && n.value !in old(lists.cells) && OnNone(lists.chains, n.value)
                && lists.cells == old(lists.cells)[n.value := Cell(Block(0, 0, true), None, None)]
    {
      if blockPoolNext >= MAX_BLOCKS {
        return None;
      }
      lists.NewCell(blockPoolNext, Block(0, 0, true));
      n := Some(blockPoolNext);
      blockPoolNext := blockPoolNext + 1;
    }

    /** free_list_insert */
    method FreeListInsert(n: nat, region: nat)
      requires ListsOk() && region < REGIONS && n in lists.cells && OnNone(lists.chains, n)
      requires forall j :: 0 <= j < |lists.contents[region]| ==>
                 lists.contents[region][j].base != lists.cells[n].val.base
      modifies lists
      ensures ListsOk()
      ensures var b := old(lists.cells)[n].val.(isFree := true);
              var s := old(lists.contents)[region];
              && lists.contents == old(lists.contents)[region := Insert(s, InsertPos(s, b.base), b)]
              && lists.chains == old(lists.chains)[region := Insert(old(lists.chains)[region], InsertPos(s, b.base), n)]
              && SameVals(old(lists.cells)[n := old(lists.cells)[n].(val := b)], lists.cells)
    {
      ghost var s := lists.contents[region];
      var base := lists.cells[n].val.base;
      lists.SetLoose(n, lists.cells[n].val.(isFree := true));
      ghost var chain := lists.chains[region];
      lists.ListAt(region);
      var head := lists.heads[region];
      if head.None? || base < lists.cells[head.value].val.base {
        InsertPosIs(s, base, 0);
        lists.PushFront(region, n);
        return;
      }
      var curr := head.value;
      ghost var i := 0;
      assert LinkAt(lists.cells, chain, 0);
      while lists.cells[curr].next.Some? && lists.cells[lists.cells[curr].next.value].val.base < base
        invariant 0 <= i < |chain| && chain[i] == curr && LinkAt(lists.cells, chain, i)
        invariant forall j :: 0 <= j <= i ==> s[j].base <= base
        decreases |chain| - i
      {
        curr := lists.cells[curr].next.value;
        i := i + 1;
        assert LinkAt(lists.cells, chain, i);
      }
      InsertPosIs(s, base, i + 1);
      lists.InsertAfter(region, curr, n, i);
    }

    /** The prefix split: `n`, at position `k`, keeps the bytes after `prefix`. */
    method SplitPrefix(region: nat, n: nat, prefix: nat, ghost k: nat) returns (ok: bool)
      requires ListsOk() && region < REGIONS && k < |lists.chains[region]| && lists.chains[region][k] == n
      requires n in lists.cells && Normal(lists.contents[region])
      requires prefix < lists.contents[region][k].size
      modifies this`blockPoolNext, lists
      ensures ListsOk() && ok == (prefix == 0 || old(blockPoolNext) < MAX_BLOCKS)
      ensures !ok ==> blockPoolNext == old(blockPoolNext) && lists.contents == old(lists.contents)
      ensures ok ==>
                && blockPoolNext == old(blockPoolNext) + (if prefix > 0 then 1 else 0)
                && lists.contents == old(lists.contents)[region := PrefixSplit(old(lists.contents)[region], k, prefix)]
                && Behind(k, prefix) < |lists.chains[region]| && lists.chains[region][Behind(k, prefix)] == n
                && n in lists.cells
    {
      hide Normal, Insert, InsertPos;
      if prefix == 0 {
        return true;
      }
      ghost var s := lists.contents[region];
      lists.Around(region, k);
      var block := lists.cells[n].val;
      var fresh_ := AllocBlock();
      if fresh_.None? {
        return false;
      }
      lists.SetLoose(fresh_.value, Block(block.base, prefix, true));
      lists.SetAt(region, n, block.(base := block.base + prefix, size := block.size - prefix), k);
      PrefixPosition(s, k, prefix);
      ghost var s1 := s[k := TailOf(s[k], prefix)];
      assert lists.contents == old(lists.contents)[region := s1];
      UpdateTwice(old(lists.contents), region, s1, PrefixSplit(s, k, prefix));
      FreeListInsert(fresh_.value, region);
      ok := true;
    }

    /** The remainder split: `n` keeps `size` bytes if the rest is worth a block of its own. */
    method SplitRemainder(region: nat, n: nat, size: nat, ghost k: nat)
      requires ListsOk() && region < REGIONS && k < |lists.chains[region]| && lists.chains[region][k] == n
      requires n in lists.cells && 0 < size <= lists.contents[region][k].size
      requires var s := lists.contents[region];
               && (forall j :: 0 <= j < k ==> s[j].base < s[k].base)
               && (forall j :: k < j < |s| ==> Gap(s[k], s[j]))
      modifies this`blockPoolNext, lists
      ensures ListsOk()
      ensures var s := old(lists.contents)[region];
              var split := s[k].size - size > TENSOR_ALIGN && old(blockPoolNext) < MAX_BLOCKS;
              && blockPoolNext == old(blockPoolNext) + (if split then 1 else 0)
              && lists.contents == old(lists.contents)[region := RemainderSplit(s, k, if split then size else s[k].size)]
              && k < |lists.chains[region]| && lists.chains[region][k] == n && n in lists.cells
    {
      hide Gap, Insert, InsertPos;
      ghost var s := lists.contents[region];
      lists.Around(region, k);
      var block := lists.cells[n].val;
      if block.size - size > TENSOR_ALIGN {
        var fresh_ := AllocBlock();
        if fresh_.Some? {
          lists.SetLoose(fresh_.value, Block(block.base + size, block.size - size, true));
          lists.SetAt(region, n, block.(size := size), k);
          RemainderPosition(s, k, size);
          ghost var s1 := s[k := s[k].(size := size)];
          assert lists.contents == old(lists.contents)[region := s1];
          UpdateTwice(old(lists.contents), region, s1, RemainderSplit(s, k, size));
          FreeListInsert(fresh_.value, region);
        }
      }
    }

    /** free_list_remove */
    method FreeListRemove(region: nat, n: nat, ghost k: nat)
      requires ListsOk() && region < REGIONS && k < |lists.chains[region]| && lists.chains[region][k] == n
      modifies lists
      ensures ListsOk() && n in lists.cells
      ensures lists.contents == old(lists.contents)[region := Remove(old(lists.contents)[region], k)]
      ensures lists.cells[n].val == old(lists.contents)[region][k].(isFree := false)
    {
      lists.Around(region, k);
      lists.Unlink(region, n, k);
      lists.SetLoose(n, lists.cells[n].val.(isFree := false));
    }

    /** The list work of an allocation: both splits, then the block leaves the list. */
    method TakeBlock(region: nat, n: nat, prefix: nat, size: nat, ghost k: nat) returns (taken: Option<Block>)
      requires ListsOk() && region < REGIONS && k < |lists.chains[region]| && lists.chains[region][k] == n
      requires n in lists.cells && Normal(lists.contents[region])
      requires 0 < size && prefix + size <= lists.contents[region][k].size
      modifies this`blockPoolNext, lists
      ensures ListsOk()
      ensures taken.None? <==> prefix > 0 && old(blockPoolNext) >= MAX_BLOCKS
      ensures taken.None? ==> blockPoolNext == old(blockPoolNext) && lists.contents == old(lists.contents)
      ensures taken.Some? ==>
                var s := old(lists.contents)[region];
                var used := old(blockPoolNext) + (if prefix > 0 then 1 else 0);
                var split := s[k].size - prefix - size > TENSOR_ALIGN && used < MAX_BLOCKS;
                && blockPoolNext == used + (if split then 1 else 0)
                && taken.value.base == s[k].base + prefix
                && taken.value.size == (if split then size else s[k].size - prefix)
                && lists.contents == old(lists.contents)[region := Carve(s, k, prefix, taken.value.size)]
    {
      ghost var s := lists.contents[region];
      ghost var k1 := Behind(k, prefix);
      AfterPrefix(s, k, prefix);
      var ok := SplitPrefix(region, n, prefix, k);
      if !ok {
        return None;
      }
      ghost var c0, c1 := old(lists.contents), lists.contents;
      ghost var s1 := PrefixSplit(s, k, prefix);
      assert c1 == c0[region := s1] && c1[region] == s1;
      SplitRemainder(region, n, size, k1);
      ghost var c2 := lists.contents;
      ghost var s2 := c2[region];
      UpdateTwice(c0, region, s1, s2);
      assert c2 == c0[region := s2];
      FreeListRemove(region, n, k1);
      taken := Some(lists.cells[n].val);
      UpdateTwice(c0, region, s2, Remove(s2, k1));
      SplitsAreCarve(s, k, prefix, taken.value.size);
    }

    /** find_best_fit */
    method FindBestFit(region: nat, size: nat, a: nat) returns (best: Option<nat>, ghost k: Option<nat>)
      requires ListsOk() && region < REGIONS && a > 0
      ensures k == BestFit(lists.contents[region], size, a) && (best.Some? <==> k.Some?)
      ensures best.Some? ==> best.value in lists.cells && lists.chains[region][k.value] == best.value
    {
      ghost var s, chain := lists.contents[region], lists.chains[region];
      lists.ListAt(region);
      best, k := None, None;
      var bestSize := U64_MAX;
      var curr := lists.heads[region];
      ghost var i := 0;
      while curr.Some?
        invariant 0 <= i <= |chain| && curr == At(chain, i)
        invariant k == BestUpTo(s, i, size, a) && (best.Some? <==> k.Some?)
        invariant best.Some? ==> best.value in lists.cells && chain[k.value] == best.value
        invariant bestSize == (if k.Some? then s[k.value].size else U64_MAX)
        decreases |chain| - i
      {
        assert LinkAt(lists.cells, chain, i);
        var block := lists.cells[curr.value].val;
        if block.isFree && block.size >= size {
          if block.base <= U64_MAX - (a - 1) {
            var alignedBase := AlignUp32(block.base, a);
            var waste := (alignedBase - block.base) % U64_LIMIT;
            if waste <= block.size && size <= block.size - waste && ExcludesHole(alignedBase, size) {
              if block.size < bestSize {
                best, bestSize := curr, block.size;
                k := Some(i);
              }
            }
          }
        }
        curr := lists.cells[curr.value].next;
        i := i + 1;
      }
    }

    /** coalesce_blocks: merge with the next block, then with the previous one. */
    method Coalesce(region: nat, n: nat, ghost k: nat)
      requires ListsOk() && region < REGIONS && k < |lists.chains[region]| && lists.chains[region][k] == n
      requires lists.contents[region][k].isFree
      modifies lists
      ensures ListsOk()
      ensures lists.contents
              == old(lists.contents)[region := MergeAt(MergeAt(old(lists.contents)[region], k), (k as int) - 1)]
    {
      ghost var s := lists.contents[region];
      lists.Around(region, k);
      var after := lists.cells[n].next;
      if after.Some? {
        lists.Around(region, k + 1);
        if lists.cells[after.value].val.isFree
           && lists.cells[n].val.base + lists.cells[n].val.size == lists.cells[after.value].val.base {
          MergeWithNext(region, n, k);
        }
      }
      ghost var s1 := lists.contents[region];
      assert s1 == MergeAt(s, k);
      assert lists.contents == old(lists.contents)[region := s1];
      lists.Around(region, k);
      var before := lists.cells[n].prev;
      if before.Some? {
        lists.Around(region, k - 1);
        if lists.cells[before.value].val.isFree
           && lists.cells[before.value].val.base + lists.cells[before.value].val.size == lists.cells[n].val.base {
          MergeWithNext(region, before.value, k - 1);
          UpdateTwice(old(lists.contents), region, s1, Merge(s1, k - 1));
        }
      }
    }

    /** The block at position `k` swallows its successor. */
    method MergeWithNext(region: nat, n: nat, ghost k: nat)
      requires ListsOk() && region < REGIONS && k + 1 < |lists.chains[region]| && lists.chains[region][k] == n
      modifies lists
      ensures ListsOk()
      ensures lists.contents == old(lists.contents)[region := Merge(old(lists.contents)[region], k)]
      ensures lists.chains == old(lists.chains)[region := Remove(old(lists.chains)[region], k + 1)]
    {
      ghost var s := lists.contents[region];
      lists.Around(region, k);
      lists.Around(region, k + 1);
      var next := lists.cells[n].next.value;
      var merged := lists.cells[n].val.(size := lists.cells[n].val.size + lists.cells[next].val.size);
      lists.SetAt(region, n, merged, k);
      UpdateTwice(old(lists.contents), region, s[k := merged], Merge(s, k));
      lists.DropNext(region, n, k);
    }

    /** free_list_insert followed by coalesce_blocks, as tensor_free does. */
    method GiveBackBlock(region: nat, n: nat)
      requires ListsOk() && region < REGIONS && n in lists.cells && OnNone(lists.chains, n)
      requires forall j :: 0 <= j < |lists.contents[region]| ==>
                 lists.contents[region][j].base != lists.cells[n].val.base
      modifies lists
      ensures ListsOk()
      ensures lists.contents
              == old(lists.contents)[region := GiveBack(old(lists.contents)[region], old(lists.cells)[n].val)]
    {
      ghost var s, b := lists.contents[region], lists.cells[n].val;
      ghost var p := InsertPos(s, b.base);
      FreeListInsert(n, region);
      ghost var s1 := Insert(s, p, b.(isFree := true));
      assert lists.contents == old(lists.contents)[region := s1] && lists.contents[region] == s1;
      UpdateTwice(old(lists.contents), region, s1, GiveBack(s, b));
      Coalesce(region, n, p);
    }

    /** find_tensor */
    method FindIndex(id: nat) returns (i: Option<nat>)
      requires Valid()
      ensures i == FindTensor(table[..tensorCount], id)
    {
      var n := 0;
      while n < tensorCount
        invariant 0 <= n <= tensorCount
        invariant forall j :: 0 <= j < n ==> table[j].id != id
      {
        if table[n].id == id {
          FindTensorIs(table[..tensorCount], id, n);
          return Some(n);
        }
        n := n + 1;
      }
      FindTensorIs(table[..tensorCount], id, n);
      i := None;
    }

    /** tensor_alloc_aligned_profiled */
    method AllocAligned(size: U64, alignment: U32, region: U32, lifetime: Lifetime)
      returns (status: Status, out: Option<Tensor>)
      requires Sound()
      modifies this, lists, table
      ensures Sound() && pools == old(pools)
      ensures AllocResult(Abs(), status, out) == Alloc(old(Abs()), size, alignment, region, lifetime)
    {
      ghost var st := Abs();
      AllocKeepsInv(st, pools, size, alignment, region, lifetime);
      if size == 0 || region >= REGIONS {
        return Inval, None;
      }
      if tensorCount >= MAX_TENSORS {
        return NoMem, None;
      }
      var a := Max(alignment, TENSOR_ALIGN);
      if !IsPow2(a) {
        return Inval, None;
      }
      if size > U64_MAX - (a - 1) {
        return Overflow, None;
      }
      var rounded := AlignUp32(size, a);
      if rounded == 0 {
        return Overflow, None;
      }
      var block, k := FindBestFit(region, rounded, a);
      if block.None? {
        return NoMem, None;
      }
      assert RegionOk(pools[region], st.free[region], st.tensors, region);
      WasteExact(st, pools, region, k.value, a);
      status, out := TakeAndRecord(region, block.value, rounded, a, lifetime, k.value);
    }

    /** The chosen block is cut; the two late guards of the source never fire. */
    method CutChosen(region: nat, n: nat, rounded: nat, a: nat, ghost k: nat) returns (status: Status, taken: Block)
      requires ListsOk() && a > 0 && rounded > 0
      requires region < REGIONS && k < |lists.chains[region]| && lists.chains[region][k] == n && n in lists.cells
      requires var b := lists.contents[region][k];
               && Normal(lists.contents[region])
               && Feasible(b, rounded, a) && AlignUp32(b.base, a) == b.base + Waste(b, a)
      modifies this`blockPoolNext, lists
      ensures ListsOk()
      ensures var s := old(lists.contents)[region];
              var cut := CutOf(s[k], rounded, a, old(blockPoolNext));
              && status == (if cut.Some? then Ok else NoMem)
              && (cut.None? ==> blockPoolNext == old(blockPoolNext) && lists.contents == old(lists.contents))
              && (cut.Some? ==>
                    && blockPoolNext == old(blockPoolNext) + cut.value.spent
                    && lists.contents == old(lists.contents)[region := Carve(s, k, cut.value.prefix, cut.value.taken)]
                    && taken.base == s[k].base + cut.value.prefix && taken.size == cut.value.taken)
    {
      lists.Around(region, k);
      var block := lists.cells[n].val;
      if block.base > U64_MAX - (a - 1) {
        return Overflow, block;
      }
      var alignedBase := AlignUp32(block.base, a);
      if !ExcludesHole(alignedBase, rounded) {
        return Io, block;
      }
      var result := TakeBlock(region, n, alignedBase - block.base, rounded, k);
      if result.None? {
        return NoMem, block;
      }
      status, taken := Ok, result.value;
    }

    /** The allocation once the block is chosen. */
    method TakeAndRecord(region: nat, n: nat, rounded: nat, a: nat, lifetime: Lifetime, ghost k: nat)
      returns (status: Status, out: Option<Tensor>)
      requires Valid() && tensorCount < MAX_TENSORS && a > 0 && rounded > 0
      requires region < REGIONS && k < |lists.chains[region]| && lists.chains[region][k] == n && n in lists.cells
      requires var b := lists.contents[region][k];
               && Normal(lists.contents[region])
               && Feasible(b, rounded, a) && AlignUp32(b.base, a) == b.base + Waste(b, a)
      modifies this, lists, table
      ensures Valid() && pools == old(pools)
      ensures AllocResult(Abs(), status, out)
              == match CutOf(old(lists.contents)[region][k], rounded, a, old(blockPoolNext))
                 case None => AllocResult(old(Abs()), NoMem, None)
                 case Some(cut) => Taken(old(Abs()), region, k, cut, lifetime)
    {
      hide Feasible, Waste, Carve, CutOf, Normal, AlignUp32;
      var taken;
      status, taken := CutChosen(region, n, rounded, a, k);
      if status != Ok {
        return status, None;
      }
      var t := Tensor(nextTensorId, taken.base, taken.size, region, lifetime, 1);
      Record(t);
      out := Some(t);
    }

    /** The tensor record and the statistics of a successful allocation. */
    method Record(t: Tensor)
      requires Valid() && tensorCount < MAX_TENSORS && t.region < REGIONS
      modifies this`tensorCount, this`nextTensorId, this`stats, table
      ensures Valid()
      ensures Abs() == old(Abs()).(tensors := old(Abs()).tensors + [t],
                                   nextId := (old(nextTensorId) + 1) % U32_LIMIT,
                                   stats := StatsOnAlloc(old(stats), t))
    {
      table[tensorCount] := t;
      tensorCount := tensorCount + 1;
      nextTensorId := (nextTensorId + 1) % U32_LIMIT;
      stats := StatsOnAlloc(stats, t);
      assert table[..tensorCount] == old(table[..tensorCount]) + [t];
    }

    /** The reference count of record `i` changes and nothing else. */
    method PutRefCount(i: nat, n: nat)
      requires Valid() && i < tensorCount
      modifies table
      ensures Valid() && Abs() == SetRef(old(Abs()), i, n)
      ensures table[i] == old(table[i]).(refCount := n) && forall j :: 0 <= j < tensorCount && j != i ==> table[j] == old(table[j])
    {
      table[i] := table[i].(refCount := n);
      assert table[..tensorCount] == old(table[..tensorCount])[i := old(table[i]).(refCount := n)];
    }

    /** Swap-with-last deletion of record `i` and the statistics of a free. */
    method Forget(i: nat)
      requires Valid() && i < tensorCount
      modifies this`tensorCount, this`stats, table
      ensures Valid()
      ensures Abs() == old(Abs()).(tensors := SwapRemove(old(Abs()).tensors, i),
                                   stats := StatsOnFree(old(stats), old(table[i])))
    {
      stats := StatsOnFree(stats, table[i]);
      if i < tensorCount - 1 {
        table[i] := table[tensorCount - 1];
      }
      tensorCount := tensorCount - 1;
      assert table[..tensorCount] == SwapRemove(old(table[..tensorCount]), i);
    }

    /** tensor_free, once the record is found and its count allows the release. */
    method Release(i: nat) returns (status: Status)
      requires Valid() && i < tensorCount
      requires var t := table[i];
               forall j :: 0 <= j < |lists.contents[t.region]| ==> lists.contents[t.region][j].base != t.base
      modifies this, lists, table
      ensures Valid() && pools == old(pools)
      ensures status == (if old(blockPoolNext) >= MAX_BLOCKS then NoMem else Ok)
      ensures Abs() == if status == Ok then Released(old(Abs()), i) else old(Abs())
    {
      var t := table[i];
      var block := AllocBlock();
      if block.None? {
        return NoMem;
      }
      lists.SetLoose(block.value, BlockOf(t));
      GiveBackBlock(t.region, block.value);
      Forget(i);
      status := Ok;
    }

    /** No free block of a region starts where one of its live tensors does. */
    ghost predicate BasesApart()
      reads this, lists, table
      requires Valid()
    {
      forall i, j :: 0 <= i < tensorCount && 0 <= j < |lists.contents[table[i].region]| ==>
        lists.contents[table[i].region][j].base != table[i].base
    }

    lemma SoundBasesApart()
      requires Sound()
      ensures BasesApart()
    {
      forall i, j | 0 <= i < tensorCount && 0 <= j < |lists.contents[table[i].region]|
        ensures lists.contents[table[i].region][j].base != table[i].base
      {
        TensorBaseIsFresh(Abs(), pools, i, j);
      }
    }

    method FreeFound(id: U32) returns (status: Status)
      requires Valid() && BasesApart()
      modifies this, lists, table
      ensures Valid() && pools == old(pools)
      ensures (Abs(), status) == Free(old(Abs()), id)
    {
      var found := FindIndex(id);
      if found.None? {
        return Inval;
      }
      var i := found.value;
      if table[i].refCount > 1 {
        PutRefCount(i, table[i].refCount - 1);
        return Ok;
      }
      status := Release(i);
    }

    /** tensor_free */
    method FreeTensor(id: U32) returns (status: Status)
      requires Sound()
      modifies this, lists, table
      ensures Sound() && pools == old(pools)
      ensures (Abs(), status) == Free(old(Abs()), id)
    {
      FreeKeepsInv(Abs(), pools, id);
      SoundBasesApart();
      status := FreeFound(id);
    }

    method RefFound(id: U32) returns (status: Status)
      requires Valid()
      modifies table
      ensures Valid() && (Abs(), status) == Ref(old(Abs()), id)
    {
      var found := FindIndex(id);
      if found.None? {
        return Inval;
      }
      PutRefCount(found.value, (table[found.value].refCount + 1) % U32_LIMIT);
      status := Ok;
    }

    /** tensor_ref */
    method RefTensor(id: U32) returns (status: Status)
      requires Sound()
      modifies table
      ensures Sound() && (Abs(), status) == Ref(old(Abs()), id)
    {
      RefKeepsInv(Abs(), pools, id);
      status := RefFound(id);
    }

    method UnrefFound(id: U32) returns (status: Status)
      requires Valid() && BasesApart()
      modifies this, lists, table
      ensures Valid() && pools == old(pools)
      ensures (Abs(), status) == Unref(old(Abs()), id)
    {
      var found := FindIndex(id);
      if found.None? {
        return Inval;
      }
      var i := found.value;
      if table[i].refCount == 0 {
        return Inval;
      }
      PutRefCount(i, table[i].refCount - 1);
      if table[i].refCount == 0 {
        status := FreeFound(id);
      } else {
        status := Ok;
      }
    }

    /** tensor_unref */
    method UnrefTensor(id: U32) returns (status: Status)
      requires Sound()
      modifies this, lists, table
      ensures Sound() && pools == old(pools)
      ensures (Abs(), status) == Unref(old(Abs()), id)
    {
      UnrefKeepsInv(Abs(), pools, id);
      SoundBasesApart();
      status := UnrefFound(id);
    }
  }
}
