/**
 The kernel heap as the source runs it: headers inside a static pool, chained by next and prev
 pointers, split on allocation and merged on release. A header is 32 bytes: size, then the tag
 (magic and free) in bytes 8 to 15, then next, then prev in bytes 24 to 31. A header that leaves
 the chain keeps a zeroed magic until somebody writes its tag: the owner of a payload that covers
 it, or a later header 16 bytes below it, whose prev field lies exactly there.
 */
module KernelHeap {
  import opened Types
  import opened LinkedList
  import opened FreeBlocks
  import opened HeapSpec
  import HeapTheorems

  const MAGIC_FREE: nat := 0xCAFEF00D
  const MAGIC_USED: nat := 0xDEADBEEF

  datatype Header = Header(size: nat, magic: nat, isFree: bool)

  function BlockAt(offset: nat, h: Header): Block { Block(offset, h.size, h.isFree) }

  /** The blocks that a chain of header offsets and the headers themselves spell. */
  ghost function Spelled(chain: seq<nat>, hs: seq<Header>): (s: seq<Block>)
    requires |chain| == |hs|
    ensures |s| == |chain|
    ensures forall i :: 0 <= i < |s| ==> s[i] == BlockAt(chain[i], hs[i])
  {
    seq(|chain|, i requires 0 <= i < |chain| => BlockAt(chain[i], hs[i]))
  }

  /** What the two tests of kfree ask of a header. */
  predicate SaysUsed(h: Header) { h.magic == MAGIC_USED && !h.isFree }

  /** Wild: the call works on a header that is not one. What it does then is not modelled. */
  datatype FreeOutcome = Done | Panicked | Wild

  predicate MagicOk(h: Header) { h.magic == if h.isFree then MAGIC_FREE else MAGIC_USED }

  lemma SpelledUpdate(chain: seq<nat>, hs: seq<Header>, k: nat, h: Header)
    requires |chain| == |hs| && k < |hs|
    ensures Spelled(chain, hs[k := h]) == Spelled(chain, hs)[k := BlockAt(chain[k], h)]
  {
  }

  lemma SpelledInsert(chain: seq<nat>, hs: seq<Header>, k: nat, n: nat, h: Header)
    requires |chain| == |hs| && k <= |hs|
    ensures Spelled(Insert(chain, k, n), Insert(hs, k, h)) == Insert(Spelled(chain, hs), k, BlockAt(n, h))
  {
  }

  lemma SpelledRemove(chain: seq<nat>, hs: seq<Header>, k: nat)
    requires |chain| == |hs| && k < |hs|
    ensures Spelled(Remove(chain, k), Remove(hs, k)) == Remove(Spelled(chain, hs), k)
  {
  }

  // ---------- headers off the chain ----------

  /** The tag of a header at `n` lies in the payload of a used block, whose owner may write it. */
  ghost predicate InLive(s: seq<Block>, n: nat) {
    exists b :: b in HeapTheorems.UsedBlocks(s) && b.base + HEADER <= n + TAG && n + 2 * TAG <= Next(b)
  }

  /** The offset of the tag in a header, and its length. */
  const TAG: nat := 8

  /** How far above a header the tag of another one lies under its prev field. */
  const SHADOW: nat := 16

  /** What a tag reads that lies under a prev field: the address of another header, as two 32-bit words. */
  function PointerTag(pool: nat, prev: nat): Header {
    Header(0, (pool + prev) % U32_LIMIT, (pool + prev) / U32_LIMIT % U32_LIMIT != 0)
  }

  /** Headers are 16-byte aligned, so an address never reads as the used magic. */
  lemma PointerSaysNothing(pool: nat, prev: nat)
    requires pool % HEAP_ALIGN == 0 && prev % HEAP_ALIGN == 0
    ensures !SaysUsed(PointerTag(pool, prev))
  {
    assert (pool + prev) % U32_LIMIT % HEAP_ALIGN == 0;
  }

  /** No owner reaches the tag that lies under a header of the chain. */
  lemma ShadowNotLive(s: seq<Block>, k: nat)
    requires Tiles(s) && k < |s|
    ensures !InLive(s, s[k].base + SHADOW)
  {
    var n := s[k].base + SHADOW;
    forall b | b in HeapTheorems.UsedBlocks(s) ensures !(b.base + HEADER <= n + TAG && n + 2 * TAG <= Next(b)) {
      var j :| 0 <= j < |s| && s[j] == b;
      if j < k {
        Ordered(s, j, k);
      } else if j > k {
        Ordered(s, k, j);
      }
    }
  }

  /** Free memory has no owner. */
  lemma FreeNotLive(s: seq<Block>, n: nat)
    requires Tiles(s) && LiesFree(s, n)
    ensures !InLive(s, n)
  {
    var k :| 0 <= k < |s| && Contains(s[k], n);
    forall b | b in HeapTheorems.UsedBlocks(s) ensures !(b.base + HEADER <= n + TAG && n + 2 * TAG <= Next(b)) {
      var j :| 0 <= j < |s| && s[j] == b;
      if j < k {
        Ordered(s, j, k);
      } else if j > k {
        Ordered(s, k, j);
      }
    }
  }

  /** Freeing block `k` gives nobody anything, and the headers that leave the chain have no owner. */
  lemma FreedNotLive(s: seq<Block>, k: nat)
    requires Tiles(s) && AllAligned(s) && k < |s| && !s[k].isFree
    ensures var t := Coalesced(SetFree(s, k, true), k);
            forall n :: !InLive(s, n) || Dropped(s, t, n) ==> !InLive(t, n)
  {
    hide LiesFree;
    var f := SetFree(s, k, true);
    var t := Coalesced(f, k);
    FreedTiles(s, k);
    FreedLiesFree(s, k);
    HeapTheorems.UsedReturned(s, k);
    HeapTheorems.UsedMerge(f, k);
    HeapTheorems.UsedMerge(AbsorbAt(f, k), k - 1);
    forall n | !InLive(s, n) || Dropped(s, t, n) ensures !InLive(t, n) {
      if Dropped(s, t, n) {
        FreeNotLive(t, n);
      }
    }
  }

  /** The 32 bytes at `n` lie in the payload of a free block. */
  ghost predicate LiesFree(s: seq<Block>, n: nat) {
    exists k :: 0 <= k < |s| && Contains(s[k], n)
  }

  predicate Contains(b: Block, n: nat) { b.isFree && b.base + HEADER <= n && n + HEADER <= Next(b) }

  ghost predicate HeaderOf(s: seq<Block>, n: nat) {
    exists k :: 0 <= k < |s| && s[k].base == n
  }

  /** A header of chain `s` that is not one of chain `t`. */
  ghost predicate Dropped(s: seq<Block>, t: seq<Block>, n: nat) { HeaderOf(s, n) && !HeaderOf(t, n) }

  /** A merge keeps free memory free and turns the absorbed header into free memory. */
  lemma AbsorbLiesFree(s: seq<Block>, k: int, n: nat)
    requires Tiles(s)
    ensures LiesFree(s, n) ==> LiesFree(AbsorbAt(s, k), n)
    ensures Dropped(s, AbsorbAt(s, k), n) ==> LiesFree(AbsorbAt(s, k), n)
  {
    if BothFree(s, k) {
      var t := AbsorbAt(s, k);
      assert Meets(s, k) && Meets(s, k + 1);
      assert t[k] == s[k].(size := s[k].size + HEADER + s[k + 1].size);
      if j :| 0 <= j < |s| && Contains(s[j], n) {
        var i := if j <= k then j else j - 1;
        assert Contains(t[i], n);
      }
      if Dropped(s, t, n) {
        var j :| 0 <= j < |s| && s[j].base == n;
        AbsorbedHeader(s, k, j);
        assert Contains(t[k], n);
      }
    }
  }

  lemma AbsorbedHeader(s: seq<Block>, k: nat, j: nat)
    requires BothFree(s, k) && j < |s|
    ensures j == k + 1 || HeaderOf(AbsorbAt(s, k), s[j].base)
  {
    var t := AbsorbAt(s, k);
    if j <= k {
      assert t[j].base == s[j].base;
    } else if j > k + 1 {
      assert t[j - 1].base == s[j].base;
    }
  }

  /** Freeing block `k` keeps free memory free, and what leaves the chain lies in it. */
  lemma FreedLiesFree(s: seq<Block>, k: nat)
    requires Tiles(s) && AllAligned(s) && k < |s|
    ensures var t := Coalesced(SetFree(s, k, true), k);
            forall n :: LiesFree(s, n) || Dropped(s, t, n) ==> LiesFree(t, n)
  {
    var f := SetFree(s, k, true);
    var g := AbsorbAt(f, k);
    var t := Coalesced(f, k);
    FreedTiles(s, k);
    forall n | LiesFree(s, n) || Dropped(s, t, n) ensures LiesFree(t, n) {
      AbsorbLiesFree(f, k, n);
      AbsorbLiesFree(g, k - 1, n);
      if j :| 0 <= j < |s| && Contains(s[j], n) {
        assert Contains(f[j], n);
      }
      if j :| 0 <= j < |s| && s[j].base == n {
        assert f[j].base == n;
      }
    }
  }

  lemma FreedTiles(s: seq<Block>, k: nat)
    requires Tiles(s) && AllAligned(s) && k < |s|
    ensures Tiles(SetFree(s, k, true)) && Tiles(AbsorbAt(SetFree(s, k, true), k))
    ensures Tiles(Coalesced(SetFree(s, k, true), k))
  {
    var f := SetFree(s, k, true);
    forall i | 0 <= i < |f| ensures Meets(f, i) {
      assert Meets(s, i);
    }
    MergeTiles(f, k);
    MergeTiles(AbsorbAt(f, k), k - 1);
  }

  /** What becomes of the safe headers when headers are only written: what lies under a header of the chain joins them. */
  ghost predicate OnlyWritten(before: set<nat>, after: set<nat>, headers: set<nat>, chain: seq<nat>) {
    forall m :: m in after <==> m in headers && m !in chain && (m in before || m - SHADOW in chain)
  }

  lemma WroteShadow(before: set<nat>, after: set<nat>, headers: set<nat>, chain: seq<nat>, n: nat)
    requires OnlyWritten(after, after, headers, chain) && n in chain
    requires after == before + (if n + SHADOW in headers then {n + SHADOW} else {}) - {n}
    ensures OnlyWritten(before, after, headers, chain)
  {
    forall m: nat | m in after ensures m in before || m - SHADOW in chain {
      assert m == n + SHADOW ==> m - SHADOW == n;
    }
    forall m: nat | m in headers && m !in chain && m in before ensures m in after {
      assert m != n;
    }
  }

  /** What becomes of them when memory is handed out: what an owner can write leaves them. */
  ghost predicate HandedOut(before: set<nat>, after: set<nat>, headers: set<nat>, chain: seq<nat>, s: seq<Block>) {
    forall m :: m in after <==> m in headers && m !in chain && ((m in before && !InLive(s, m)) || m - SHADOW in chain)
  }

  class Arena {
    const lists: Lists<Header>
    var ready: bool
    var stats: Stats
    /** Where the pool starts in memory. */
    const pool: nat
    /** The headers off the chain whose tag no owner could write since the heap itself last wrote it. */
    ghost var safe: set<nat>

    /** Every header on the chain has the magic of its state, and no safe one off the chain says used. */
    ghost predicate Magics()
      reads this`safe, lists
    {
      && (forall i {:trigger lists.contents[0][i]} ::
            |lists.contents| == 1 && 0 <= i < |lists.contents[0]| ==> MagicOk(lists.contents[0][i]))
      && (forall n :: |lists.chains| == 1 && n in safe ==>
            n in lists.cells && n !in lists.chains[0] && !SaysUsed(lists.cells[n].val))
    }

    /** A tag under the prev field of a header on the chain is safe. */
    ghost predicate Shadows()
      reads this`safe, lists
    {
      forall n :: |lists.chains| == 1 && n in lists.cells && n !in lists.chains[0] && n - SHADOW in lists.chains[0] ==> n in safe
    }

    ghost predicate Chained()
      reads lists
    {
      && lists.Valid() && |lists.chains| == |lists.contents| == 1
      && |lists.chains[0]| == |lists.contents[0]|
    }

    ghost predicate Valid()
      reads this`safe, lists
    {
      Chained() && Magics() && Shadows() && pool % HEAP_ALIGN == 0
    }

    ghost function Abs(): Heap
      requires Chained()
      reads this, lists
    {
      Heap(Spelled(lists.chains[0], lists.contents[0]), stats)
    }

    ghost predicate Sound()
      reads this, lists
    {
      ready ==> Valid() && Inv(Abs()) && forall n :: n in safe ==> !InLive(Abs().blocks, n)
    }

    /** The statics before heap_init, with the pool at an aligned address. */
    constructor (address: nat)
      requires address % HEAP_ALIGN == 0
      ensures pool == address && Sound() && !ready && Chained() && lists.cells == map[] && lists.chains == [[]] && fresh(lists)
    {
      lists := new Lists(1);
      ready := false;
      stats := Stats(0, 0, 0, 0, 0, 0);
      safe := {};
      pool := address;
      new;
      assert lists.chains == [[]] && lists.contents == [[]];
    }

    /** heap_init */
    method Init()
      requires !ready && Chained() && lists.cells == map[] && lists.chains == [[]] && pool % HEAP_ALIGN == 0
      modifies this, lists
      ensures Sound() && ready && Abs() == Fresh()
    {
      lists.NewCell(0, Header(FULL, MAGIC_FREE, true));
      lists.PushFront(0, 0);
      safe := {};
      stats := Stats(FULL, 0, FULL, 0, 0, 1);
      ready := true;
      assert lists.contents[0] == [Header(FULL, MAGIC_FREE, true)] && lists.chains[0] == [0];
      assert Abs().blocks == Fresh().blocks;
      HeapTheorems.FreshInv();
    }

    /** The first-fit walk of kmalloc; the corruption panic never fires. */
    method FindFit(n: nat) returns (cur: Option<nat>, panicked: bool, ghost k: nat)
      requires Valid()
      ensures !panicked
      ensures FirstFit(Abs().blocks, 0, n) == if cur.Some? then Some(k) else None
      ensures cur.Some? ==> k < |lists.chains[0]| && lists.chains[0][k] == cur.value && cur.value in lists.cells
    {
      hide LinkAt, FirstFit;
      ghost var chain := lists.chains[0];
      ghost var s := Abs().blocks;
      lists.ListAt(0);
      HeadIs(lists.cells, lists.heads[0], chain);
      cur, k, panicked := lists.heads[0], 0, false;
      while cur.Some?
        invariant 0 <= k <= |chain| && cur == At(chain, k)
        invariant forall j :: 0 <= j < k ==> !Fits(s[j], n)
        decreases |chain| - k
      {
        lists.Around(0, k);
        var h := lists.cells[cur.value].val;
        assert h == lists.contents[0][k] && s[k] == BlockAt(chain[k], h);
        if h.magic != MAGIC_FREE && h.magic != MAGIC_USED {
          panicked := true;
          return;
        }
        if h.isFree && h.size >= n {
          FirstFitIs(s, 0, n, k);
          return;
        }
        cur := lists.cells[cur.value].next;
        k := k + 1;
      }
      FirstFitIs(s, 0, n, k);
    }

    /** What the header at position `k` says. */
    lemma HeaderAt(k: nat)
      requires Valid() && k < |lists.chains[0]|
      ensures lists.chains[0][k] in lists.cells
      ensures var h := lists.cells[lists.chains[0][k]].val;
              h == lists.contents[0][k] && MagicOk(h) && Abs().blocks[k] == BlockAt(lists.chains[0][k], h)
    {
      lists.Around(0, k);
    }

    /** The header at position `k` is rewritten in place. */
    method SetHeader(cur: nat, h: Header, ghost k: nat)
      requires Valid() && MagicOk(h)
      requires k < |lists.chains[0]| && lists.chains[0][k] == cur && cur in lists.cells
      modifies lists
      ensures Valid() && lists.chains == old(lists.chains) && cur in lists.cells
      ensures lists.contents[0] == old(lists.contents)[0][k := h]
      ensures Abs().blocks == old(Abs().blocks)[k := BlockAt(cur, h)]
      ensures old(lists.cells).Keys == lists.cells.Keys && forall m :: m in lists.cells <==> m in old(lists.cells)
    {
      hide lists.Valid;
      SpelledUpdate(lists.chains[0], lists.contents[0], k, h);
      lists.SetAt(0, cur, h, k);
    }

    /** The prev field of a header written at `n` lies over the tag of a header that once lay 16 bytes above. */
    method WriteShadow(n: nat, prev: nat)
      requires Valid() && n + SHADOW !in lists.chains[0] && prev % HEAP_ALIGN == 0
      modifies this`safe, lists
      ensures Valid() && lists.chains == old(lists.chains) && lists.contents == old(lists.contents)
      ensures lists.cells.Keys == old(lists.cells).Keys
      ensures safe == old(safe) + (if n + SHADOW in lists.cells then {n + SHADOW} else {})
    {
      hide lists.Valid, SaysUsed, MagicOk;
      if n + SHADOW in lists.cells {
        PointerSaysNothing(pool, prev);
        lists.SetLoose(n + SHADOW, PointerTag(pool, prev));
        safe := safe + {n + SHADOW};
      }
    }

    /** A new header enters the chain right behind position `k`. Later changes of its prev field write addresses, too. */
    method InsertHeader(cur: nat, n: nat, h: Header, ghost k: nat)
      requires Valid() && MagicOk(h) && n !in lists.chains[0] && n + SHADOW !in lists.chains[0] && cur % HEAP_ALIGN == 0
      requires k < |lists.chains[0]| && lists.chains[0][k] == cur && cur in lists.cells
      modifies this`safe, lists
      ensures Valid() && Abs().blocks == Insert(old(Abs().blocks), k + 1, BlockAt(n, h))
      ensures OnlyWritten(old(safe), safe, lists.cells.Keys, lists.chains[0])
      ensures k < |lists.chains[0]| && lists.chains[0][k] == cur && cur in lists.cells
      ensures old(lists.cells).Keys <= lists.cells.Keys
    {
      hide lists.Valid, SaysUsed, MagicOk, Magics, Shadows;
      WriteShadow(n, cur);
      LinkHeader(cur, n, h, k);
      Unwritten();
      WroteShadow(old(safe), safe, lists.cells.Keys, lists.chains[0], n);
    }

    method LinkHeader(cur: nat, n: nat, h: Header, ghost k: nat)
      requires Valid() && MagicOk(h) && n !in lists.chains[0] && (n + SHADOW in lists.cells ==> n + SHADOW in safe)
      requires k < |lists.chains[0]| && lists.chains[0][k] == cur && cur in lists.cells
      modifies this`safe, lists
      ensures Valid() && Abs().blocks == Insert(old(Abs().blocks), k + 1, BlockAt(n, h)) && safe == old(safe) - {n}
      ensures lists.chains[0] == Insert(old(lists.chains)[0], k + 1, n)
      ensures k < |lists.chains[0]| && lists.chains[0][k] == cur && cur in lists.cells
      ensures lists.cells.Keys == old(lists.cells).Keys + {n}
      ensures n in lists.chains[0]
    {
      hide lists.Valid, SaysUsed;
      SpelledInsert(lists.chains[0], lists.contents[0], k + 1, n, h);
      lists.NewCell(n, h);
      lists.InsertAfter(0, cur, n, k);
      StillOn(old(lists.chains)[0], k + 1, n);
      safe := safe - {n};
    }

    /** When nothing is written, nothing becomes safe or unsafe. */
    lemma Unwritten()
      requires Valid()
      ensures OnlyWritten(safe, safe, lists.cells.Keys, lists.chains[0])
    {
    }

    /** The split of kmalloc: a new header behind the `n` bytes that block `k` keeps. */
    method SplitBlock(cur: nat, n: nat, ghost k: nat)
      requires Valid() && Tiles(Abs().blocks)
      requires k < |lists.chains[0]| && lists.chains[0][k] == cur && cur in lists.cells
      requires n <= lists.contents[0][k].size && cur % HEAP_ALIGN == 0
      modifies this`stats, this`safe, lists
      ensures Valid() && Abs().blocks == Split(old(Abs().blocks), k, n)
      ensures OnlyWritten(old(safe), safe, lists.cells.Keys, lists.chains[0])
      ensures stats == old(stats).(blocks := old(stats).blocks + |Abs().blocks| - |old(Abs().blocks)|)
      ensures k < |lists.chains[0]| && lists.chains[0][k] == cur && cur in lists.cells
      ensures old(lists.cells).Keys <= lists.cells.Keys
    {
      hide lists.Valid, Magics, Tiles, Insert, MagicOk;
      ghost var s := Abs().blocks;
      Unwritten();
      HeaderAt(k);
      var h := lists.cells[cur].val;
      MagicOf(h, n, h.size - n);
      var remainder := h.size - n;
      if remainder > HEADER + HEAP_ALIGN {
        var split := cur + HEADER + n;
        OffsetFree(s, k, n);
        NotOnChain(lists.chains[0], lists.contents[0], split);
        NotOnChain(lists.chains[0], lists.contents[0], split + SHADOW);
        SetHeader(cur, h.(size := n), k);
        InsertHeader(cur, split, Header(remainder - HEADER, MAGIC_FREE, true), k);
        stats := stats.(blocks := stats.blocks + 1);
      }
    }

    /** kmalloc, once a block is chosen. */
    method TakeBlock(cur: nat, n: nat, ghost k: nat)
      requires Valid() && Tiles(Abs().blocks)
      requires k < |lists.chains[0]| && lists.chains[0][k] == cur && cur in lists.cells
      requires n <= lists.contents[0][k].size && cur % HEAP_ALIGN == 0
      modifies this`stats, this`safe, lists
      ensures Valid()
      ensures OnlyWritten(old(safe), safe, lists.cells.Keys, lists.chains[0])
      ensures var s0 := old(Abs().blocks); var s := Split(s0, k, n);
              Abs() == Heap(SetFree(s, k, false), Charged(old(stats), s[k].size, |s| - |s0|))
      ensures old(lists.cells).Keys <= lists.cells.Keys
    {
      hide lists.Valid, Magics, Tiles, Split, Charged;
      SplitBlock(cur, n, k);
      HeaderAt(k);
      var h := lists.cells[cur].val;
      SetHeader(cur, h.(magic := MAGIC_USED, isFree := false), k);
      ChargedAfter(old(stats), stats, h.size);
      stats := stats.(used := (stats.used + h.size) % U64_LIMIT, free := (stats.free - h.size) % U64_LIMIT,
                      allocs := Bump(stats.allocs));
    }

    /** kmalloc */
    method Kmalloc(size: U64) returns (result: Option<nat>, panicked: bool)
      requires Sound()
      modifies this`stats, this`safe, lists
      ensures Sound() && ready == old(ready) && !panicked
      ensures !ready ==> result.None? && stats == old(stats)
      ensures ready ==> (Abs(), result) == Malloc(old(Abs()), size)
      ensures ready ==> HandedOut(old(safe), safe, lists.cells.Keys, lists.chains[0], Abs().blocks)
      ensures old(lists.cells).Keys <= lists.cells.Keys
      ensures result.Some? ==> result.value >= HEADER && result.value - HEADER in lists.cells
    {
      hide lists.Valid, Magics, AllAligned, NoFreePair, StatsOk, FirstFit, Charged, Split;
      if !ready {
        return None, false;
      }
      if size == 0 {
        Unwritten();
        HandOut(safe);
        return None, false;
      }
      MallocKeepsInv(Abs(), size);
      result, panicked := Serve(RoundUp(size));
      HandOut(old(safe));
    }

    /** What an owner can write is not safe any more. */
    ghost method HandOut(before: set<nat>)
      requires Valid() && Tiles(Abs().blocks) && OnlyWritten(before, safe, lists.cells.Keys, lists.chains[0])
      modifies this`safe
      ensures Valid() && HandedOut(before, safe, lists.cells.Keys, lists.chains[0], Abs().blocks)
      ensures forall m :: m in safe ==> !InLive(Abs().blocks, m)
    {
      hide lists.Valid, InLive;
      ghost var s, chain := Abs().blocks, lists.chains[0];
      forall m | m - SHADOW in chain ensures !InLive(s, m) {
        var k :| 0 <= k < |chain| && chain[k] == m - SHADOW;
        assert s[k].base == chain[k];
        ShadowNotLive(s, k);
      }
      safe := set m | m in safe && !InLive(s, m);
    }

    method Serve(n: nat) returns (result: Option<nat>, panicked: bool)
      requires Valid() && Tiles(Abs().blocks) && AllAligned(Abs().blocks)
      modifies this`stats, this`safe, lists
      ensures Valid() && !panicked
      ensures OnlyWritten(old(safe), safe, lists.cells.Keys, lists.chains[0])
      ensures (Abs(), result)
              == match FirstFit(old(Abs()).blocks, 0, n)
                 case None => (old(Abs()), None)
                 case Some(k) =>
                   var s := Split(old(Abs()).blocks, k, n);
                   (Heap(SetFree(s, k, false), Charged(old(stats), s[k].size, |s| - |old(Abs()).blocks|)),
                    Some(s[k].base + HEADER))
      ensures old(lists.cells).Keys <= lists.cells.Keys
      ensures result.Some? ==> result.value >= HEADER && result.value - HEADER in lists.cells
    {
      hide LinkAt, Tiles, Meets, Charged, FirstFit;
      var cur;
      ghost var k;
      cur, panicked, k := FindFit(n);
      if cur.None? || panicked {
        return None, panicked;
      }
      assert Abs().blocks[k] == BlockAt(cur.value, lists.contents[0][k]);
      TakeBlock(cur.value, n, k);
      result := Some(cur.value + HEADER);
    }

    /** The header behind position `k` leaves the chain and loses its magic. */
    method DropHeader(b: nat, gone: nat, ghost k: nat)
      requires Valid() && k + 1 < |lists.chains[0]| && lists.chains[0][k] == b && lists.chains[0][k + 1] == gone
      modifies this`safe, lists
      ensures Valid() && Abs().blocks == Remove(old(Abs().blocks), k + 1) && safe == old(safe) + {gone}
      ensures lists.chains[0] == Remove(old(lists.chains)[0], k + 1) && gone !in lists.chains[0]
      ensures old(lists.cells).Keys <= lists.cells.Keys
    {
      hide lists.Valid;
      SpelledRemove(lists.chains[0], lists.contents[0], k + 1);
      lists.Around(0, k + 1);
      lists.DropNext(0, b, k);
      RemovedFrom(old(lists.chains)[0], k + 1);
      lists.SetLoose(gone, lists.cells[gone].val.(magic := 0));
      safe := safe + {gone};
    }

    /** One merge of coalesce: `b`, at position `k`, absorbs the free block behind it. */
    method Absorb(b: nat, gone: nat, ghost k: nat)
      requires Valid() && k + 1 < |lists.chains[0]| && lists.chains[0][k] == b && lists.chains[0][k + 1] == gone
      requires BothFree(Abs().blocks, k)
      modifies this`stats, this`safe, lists
      ensures Valid() && Abs().blocks == AbsorbAt(old(Abs().blocks), k)
      ensures safe == old(safe) + {gone} && gone !in lists.chains[0]
      ensures stats == old(stats).(blocks := old(stats).blocks - 1)
      ensures lists.chains[0] == Remove(old(lists.chains)[0], k + 1)
      ensures old(lists.cells).Keys <= lists.cells.Keys
    {
      hide lists.Valid, Magics, Remove, MagicOk;
      HeaderAt(k);
      HeaderAt(k + 1);
      var h, nh := lists.cells[b].val, lists.cells[gone].val;
      MagicOf(h, h.size + HEADER + nh.size, 0);
      SetHeader(b, h.(size := h.size + HEADER + nh.size), k);
      DropHeader(b, gone, k);
      stats := stats.(blocks := stats.blocks - 1);
    }

    /** coalesce of the free block at position `k`: forward first, then back. */
    method Coalesce(b: nat, ghost k: int)
      requires Valid() && 0 <= k < |lists.chains[0]| && lists.chains[0][k] == b && Abs().blocks[k].isFree
      modifies this`stats, this`safe, lists
      ensures Valid() && Abs().blocks == Coalesced(old(Abs().blocks), k)
      ensures forall n :: n in safe <==> n in old(safe) || (n in old(lists.chains)[0] && n !in lists.chains[0])
      ensures stats == old(stats).(blocks := old(stats).blocks - |old(Abs().blocks)| + |Abs().blocks|)
      ensures old(lists.cells).Keys <= lists.cells.Keys
    {
      hide lists.Valid, Magics, MagicOk;
      CoalesceNext(b, k);
      CoalescePrev(b, k);
    }

    method CoalesceNext(b: nat, ghost k: int)
      requires Valid() && 0 <= k < |lists.chains[0]| && lists.chains[0][k] == b && Abs().blocks[k].isFree
      modifies this`stats, this`safe, lists
      ensures Valid() && Abs().blocks == AbsorbAt(old(Abs().blocks), k)
      ensures forall n :: n in safe <==> n in old(safe) || (n in old(lists.chains)[0] && n !in lists.chains[0])
      ensures stats == old(stats).(blocks := old(stats).blocks - |old(Abs().blocks)| + |Abs().blocks|)
      ensures k < |lists.chains[0]| && lists.chains[0][k] == b
      ensures old(lists.cells).Keys <= lists.cells.Keys
    {
      hide lists.Valid, Magics, MagicOk;
      lists.Around(0, k);
      var next := lists.cells[b].next;
      if next.Some? {
        HeaderAt(k + 1);
        if lists.cells[next.value].val.isFree {
          RemovedFrom(lists.chains[0], k + 1);
          Absorb(b, next.value, k);
        }
      }
    }

    method CoalescePrev(b: nat, ghost k: int)
      requires Valid() && 0 <= k < |lists.chains[0]| && lists.chains[0][k] == b && Abs().blocks[k].isFree
      modifies this`stats, this`safe, lists
      ensures Valid() && Abs().blocks == AbsorbAt(old(Abs().blocks), k - 1)
      ensures forall n :: n in safe <==> n in old(safe) || (n in old(lists.chains)[0] && n !in lists.chains[0])
      ensures stats == old(stats).(blocks := old(stats).blocks - |old(Abs().blocks)| + |Abs().blocks|)
      ensures old(lists.cells).Keys <= lists.cells.Keys
    {
      hide lists.Valid, Magics, MagicOk;
      lists.Around(0, k);
      var prev := lists.cells[b].prev;
      if prev.Some? {
        HeaderAt(k - 1);
        if lists.cells[prev.value].val.isFree {
          RemovedFrom(lists.chains[0], k);
          Absorb(prev.value, b, k - 1);
        }
      }
    }

    /** kfree of the used block at position `k`. */
    method ReleaseBlock(b: nat, ghost k: nat)
      requires Valid() && k < |lists.chains[0]| && lists.chains[0][k] == b && b in lists.cells
      modifies this`stats, this`safe, lists
      ensures Valid()
      ensures forall n :: n in safe <==> n in old(safe) || (n in old(lists.chains)[0] && n !in lists.chains[0])
      ensures var s0 := old(Abs().blocks); var s := Coalesced(SetFree(s0, k, true), k);
              Abs() == Heap(s, Refunded(old(stats), s0[k].size, |s0| - |s|))
      ensures old(lists.cells).Keys <= lists.cells.Keys
    {
      hide lists.Valid, Magics, Refunded, Coalesced;
      HeaderAt(k);
      var h := lists.cells[b].val;
      SetHeader(b, h.(magic := MAGIC_FREE, isFree := true), k);
      stats := stats.(used := (stats.used - h.size) % U64_LIMIT, free := (stats.free + h.size) % U64_LIMIT,
                      frees := Bump(stats.frees));
      Coalesce(b, k);
      RefundedAfter(old(stats), stats, h.size);
    }

    /**
     kfree of a pointer that kmalloc once returned, so that a header was written before it. The call panics exactly
     when that header does not say used. A live block always says so and is released. A block that is not live is
     never released: its header is on the chain as free, or safe, and then the call panics; or an owner could write its
     tag since, and then it may say anything, and the call is `Wild` when it says used.
     */
    method Kfree(ptr: Option<nat>) returns (outcome: FreeOutcome)
      requires Sound()
      requires ready && ptr.Some? ==> ptr.value >= HEADER && ptr.value - HEADER in lists.cells
      modifies this`stats, this`safe, lists
      ensures Sound() && ready == old(ready)
      ensures !ready || ptr.None? ==> outcome == Done && stats == old(stats)
      ensures ready && ptr.None? ==> Abs() == old(Abs())
      ensures ready && ptr.Some? ==>
                var h := old(lists.cells)[ptr.value - HEADER].val;
                match Free(old(Abs()), ptr.value)
                case None =>
                  && Abs() == old(Abs()) && safe == old(safe)
                  && outcome == (if SaysUsed(h) then Wild else Panicked)
                  && (ptr.value - HEADER in safe || ptr.value - HEADER in lists.chains[0] ==> outcome == Panicked)
                case Some(after) =>
                  && outcome == Done && Abs() == after
                  && forall n :: n in safe <==> n in old(safe) || Dropped(old(Abs().blocks), after.blocks, n)
      ensures old(lists.cells).Keys <= lists.cells.Keys
    {
      hide lists.Valid, AllAligned, NoFreePair, StatsOk, Refunded, Coalesced, InLive, Dropped;
      if ptr.None? || !ready {
        return Done;
      }
      var b := ptr.value - HEADER;
      WhereLive(b);
      if lists.cells[b].val.magic != MAGIC_USED {
        return Panicked;
      }
      if lists.cells[b].val.isFree {
        return Panicked;
      }
      var known := OnChain(b);
      if !known {
        return Wild;
      }
      FreeLive(b);
      outcome := Done;
    }

    /** kfree once both tests passed on a live block. */
    method FreeLive(b: nat)
      requires Sound() && ready && b in lists.cells && b in lists.chains[0] && SaysUsed(lists.cells[b].val)
      modifies this`stats, this`safe, lists
      ensures Sound() && Free(old(Abs()), b + HEADER) == Some(Abs())
      ensures forall n :: n in safe <==> n in old(safe) || Dropped(old(Abs().blocks), Abs().blocks, n)
      ensures old(lists.cells).Keys <= lists.cells.Keys
    {
      hide lists.Valid, AllAligned, NoFreePair, StatsOk, Refunded, Coalesced, InLive, HeaderOf;
      WhereLive(b);
      FreeKeepsInv(Abs(), b + HEADER);
      ghost var k := FindUsed(Abs().blocks, 0, b + HEADER).value;
      FreedNotLive(Abs().blocks, k);
      OnChainIs();
      ReleaseBlock(b, k);
      OnChainIs();
    }

    /** Whether a header is on the chain. The source never asks; the model does so to tell a forged header. */
    method OnChain(b: nat) returns (found: bool)
      requires Valid()
      ensures found <==> b in lists.chains[0]
    {
      ghost var chain, k := lists.chains[0], 0;
      lists.ListAt(0);
      HeadIs(lists.cells, lists.heads[0], chain);
      var cur := lists.heads[0];
      while cur.Some?
        invariant 0 <= k <= |chain| && cur == At(chain, k)
        invariant b !in chain[..k]
        decreases |chain| - k
      {
        lists.Around(0, k);
        if cur.value == b {
          return true;
        }
        cur := lists.cells[cur.value].next;
        k := k + 1;
      }
      assert chain[..k] == chain;
      found := false;
    }

    /**
     The owner of the tag of a header off the chain writes there, or left something there before returning the bytes.
     No header of the chain lies over it.
     */
    method Overwrite(n: nat, h: Header)
      requires Sound() && ready && n in lists.cells && n !in lists.chains[0] && n !in safe
      modifies lists
      ensures Sound() && n - SHADOW !in lists.chains[0] && Abs() == old(Abs()) && lists.chains == old(lists.chains)
      ensures lists.cells == old(lists.cells)[n := old(lists.cells)[n].(val := h)]
    {
      lists.SetLoose(n, h);
    }

    /**
     A stale pointer whose header is neither on the chain nor safe is not caught for sure: what an owner may have
     written there makes kfree run on. With the contract of Kfree, safe is the exact condition for the panic.
     */
    method Forge(n: nat) returns (outcome: FreeOutcome)
      requires Sound() && ready && n in lists.cells && n !in lists.chains[0] && n !in safe
      modifies this`stats, this`safe, lists
      ensures outcome == Wild
    {
      hide lists.Valid, InLive, Dropped;
      NotLive(n);
      Overwrite(n, Header(0, MAGIC_USED, false));
      outcome := Kfree(Some(n + HEADER));
    }

    lemma OnChainIs()
      requires Chained()
      ensures forall n :: HeaderOf(Abs().blocks, n) <==> n in lists.chains[0]
    {
      var s, chain := Abs().blocks, lists.chains[0];
      forall n | n in chain ensures HeaderOf(s, n) {
        var j :| 0 <= j < |chain| && chain[j] == n;
        assert s[j].base == n;
      }
    }

    lemma NotLive(n: nat)
      requires Chained() && n !in lists.chains[0]
      ensures Free(Abs(), n + HEADER).None?
    {
      forall j | 0 <= j < |Abs().blocks| ensures Abs().blocks[j].base != n {
        assert Abs().blocks[j].base == lists.chains[0][j];
      }
    }

    lemma ThirdChain(n: nat)
      requires Chained() && (n == 256 || n == 48) && Abs().blocks == OneBlock(n)
      ensures 96 !in lists.chains[0] && (80 in lists.chains[0] <==> n == 48) && (n == 256 ==> InLive(Abs().blocks, 96))
    {
      NotHeader(Abs().blocks, n);
      OnChainIs();
    }

    lemma NotOnEmpty(n: nat)
      requires Chained() && Abs().blocks == [Block(0, FULL, true)] && n == 96
      ensures n !in lists.chains[0]
    {
      OnChainIs();
    }

    /** On the chain a header says used exactly when its block is live; a safe one off the chain never does. */
    lemma WhereLive(b: nat)
      requires Valid() && Tiles(Abs().blocks) && b in lists.cells
      ensures var h := lists.cells[b].val; var k := FindUsed(Abs().blocks, 0, b + HEADER);
              && (b in lists.chains[0] ==> (SaysUsed(h) <==> k.Some?))
              && (b !in lists.chains[0] ==> k.None?) && (b in safe ==> !SaysUsed(h))
              && (k.Some? ==> SaysUsed(h) && k.value < |lists.chains[0]| && lists.chains[0][k.value] == b)
    {
      hide lists.Valid;
      var s, chain := Abs().blocks, lists.chains[0];
      if b in chain {
        var k :| 0 <= k < |chain| && chain[k] == b;
        HeaderAt(k);
        if s[k].isFree {
          forall j | 0 <= j < |s| ensures s[j].isFree || s[j].base != b {
            if s[j].base == b {
              HeapTheorems.SameBaseSamePlace(s, j, k);
            }
          }
        } else {
          HeapTheorems.FoundAt(s, k);
        }
      } else {
        forall j | 0 <= j < |s| ensures s[j].base != b {
          assert s[j].base == chain[j];
        }
      }
    }
  }

  // ---------- a stale pointer that is not caught ----------

  /** A fresh pool after one request of `n` bytes. */
  function OneBlock(n: nat): seq<Block>
    requires n <= FULL - HEADER
  {
    [Block(0, n, false), Block(HEADER + n, FULL - HEADER - n, true)]
  }

  lemma FirstRequest(h: Heap, n: U64)
    requires h.blocks == [Block(0, FULL, true)] && 0 < n <= 256 && n % HEAP_ALIGN == 0
    ensures Malloc(h, n).1 == Some(HEADER) && Malloc(h, n).0.blocks == OneBlock(n)
  {
    hide Charged;
    assert FirstFit(h.blocks, 0, n) == Some(0);
    var s := Split(h.blocks, 0, n);
    assert SetFree(s, 0, false) == OneBlock(n);
  }

  lemma SecondRequest(h: Heap)
    requires h.blocks == OneBlock(64)
    ensures Malloc(h, 64).1 == Some(128)
    ensures Malloc(h, 64).0.blocks == [Block(0, 64, false), Block(96, 64, false), Block(192, FULL - 192, true)]
  {
    hide Charged;
    assert FirstFit(h.blocks, 1, 64) == Some(1);
    assert FirstFit(h.blocks, 0, 64) == Some(1);
    var s := Split(h.blocks, 1, 64);
    assert SetFree(s, 1, false) == [Block(0, 64, false), Block(96, 64, false), Block(192, FULL - 192, true)];
  }

  lemma SecondReturn(h: Heap)
    requires h.blocks == [Block(0, 64, false), Block(96, 64, false), Block(192, FULL - 192, true)]
    ensures Free(h, 128).Some? && Free(h, 128).value.blocks == OneBlock(64)
  {
    hide Refunded;
    assert FindUsed(h.blocks, 1, 128) == Some(1);
    var f := SetFree(h.blocks, 1, true);
    assert AbsorbAt(f, 1) == OneBlock(64);
  }

  lemma FirstReturn(h: Heap, n: nat)
    requires n <= 256 && h.blocks == OneBlock(n)
    ensures Free(h, HEADER).Some? && Free(h, HEADER).value.blocks == [Block(0, FULL, true)]
  {
    hide Refunded;
    var f := SetFree(h.blocks, 0, true);
    assert AbsorbAt(f, 0) == [Block(0, FULL, true)];
  }

  method TwoTenants(arena: Arena)
    requires arena.Sound() && arena.ready && arena.Abs().blocks == [Block(0, FULL, true)]
    modifies arena`stats, arena`safe, arena.lists
    ensures arena.Sound() && arena.ready && arena.Abs().blocks == [Block(0, FULL, true)] && 96 in arena.lists.cells
  {
    hide InLive, Dropped, Malloc, Free, OneBlock, Inv, AllLinked;
    var panicked;
    var a, b: Option<nat>;
    FirstRequest(arena.Abs(), 64);
    a, panicked := arena.Kmalloc(64);
    SecondRequest(arena.Abs());
    b, panicked := arena.Kmalloc(64);
    SecondReturn(arena.Abs());
    var freed := arena.Kfree(b);
    FirstReturn(arena.Abs(), 64);
    freed := arena.Kfree(a);
  }

  /** A third block of `n` bytes over the two, kept or returned. */
  method ThirdTenant(arena: Arena, n: U64, returned: bool)
    requires arena.Sound() && arena.ready && arena.Abs().blocks == [Block(0, FULL, true)] && 96 in arena.lists.cells
    requires n == 256 || n == 48
    modifies arena`stats, arena`safe, arena.lists
    ensures arena.Sound() && arena.ready && 96 in arena.lists.cells && 96 !in arena.lists.chains[0]
    ensures 96 in arena.safe <==> n == 48
  {
    hide InLive, HeaderOf, Malloc, Free, OneBlock, Inv, AllLinked;
    FirstRequest(arena.Abs(), n);
    var c, panicked := arena.Kmalloc(n);
    arena.ThirdChain(n);
    if returned {
      FirstReturn(arena.Abs(), n);
      NotHeader(arena.Abs().blocks, n);
      var freed := arena.Kfree(c);
      arena.NotOnEmpty(96);
    }
  }

  /**
   Two blocks are allocated and freed, and a third one covers the tag of the second header. A second kfree of the
   second pointer is then not caught for sure, not even after the third block was returned as well.
   */
  method ReusedHeader(returned: bool) returns (outcome: FreeOutcome)
    ensures outcome == Wild
  {
    hide Inv, AllLinked;
    var arena := new Arena(0);
    arena.Init();
    TwoTenants(arena);
    ThirdTenant(arena, 256, returned);
    outcome := arena.Forge(96);
  }

  /**
   The same with a third block of 48 bytes: the header behind it lies 16 bytes below the stale one, whose tag is now a
   prev pointer. The second kfree of the second pointer panics, also after the third block was returned.
   */
  method ShadowedHeader(returned: bool) returns (outcome: FreeOutcome)
    ensures outcome == Panicked
  {
    hide Inv, AllLinked;
    var arena := new Arena(0);
    arena.Init();
    TwoTenants(arena);
    ThirdTenant(arena, 48, returned);
    arena.NotLive(96);
    outcome := arena.Kfree(Some(96 + HEADER));
  }

  lemma NotHeader(s: seq<Block>, n: nat)
    requires n == 256 || n == 48
    requires s == OneBlock(n)
    ensures !HeaderOf(s, 96) && (HeaderOf(s, 80) <==> n == 48) && (n == 256 ==> InLive(s, 96))
  {
    if n == 256 {
      assert s[0] in HeapTheorems.UsedBlocks(s);
    } else {
      assert s[1].base == 80;
    }
  }

  lemma HeadIs<T>(m: Store<T>, head: Option<nat>, chain: seq<nat>)
    requires Linked(m, head, chain)
    ensures head == At(chain, 0)
  {
  }

  lemma {:induction false} FirstFitIs(s: seq<Block>, m: nat, n: nat, k: nat)
    requires m <= k <= |s| && forall j :: m <= j < k ==> !Fits(s[j], n)
    requires k < |s| ==> Fits(s[k], n)
    ensures FirstFit(s, m, n) == if k < |s| then Some(k) else None
    decreases k - m
  {
    if m < k {
      FirstFitIs(s, m + 1, n, k);
    }
  }

  lemma StillOn(chain: seq<nat>, k: nat, n: nat)
    requires k <= |chain|
    ensures n in Insert(chain, k, n) && forall x :: x in chain ==> x in Insert(chain, k, n)
    ensures forall x :: x in Insert(chain, k, n) ==> x == n || x in chain
  {
    var c := Insert(chain, k, n);
    assert c[k] == n;
    forall i | 0 <= i < |chain| ensures chain[i] in c {
      assert c[if i < k then i else i + 1] == chain[i];
    }
  }

  lemma MagicOf(h: Header, n: nat, size: int)
    requires MagicOk(h)
    ensures MagicOk(h.(size := n)) && (size >= HEADER ==> MagicOk(Header(size - HEADER, MAGIC_FREE, true)))
  {
  }

  lemma NotOnChain(chain: seq<nat>, hs: seq<Header>, n: nat)
    requires |chain| == |hs|
    requires var s := Spelled(chain, hs); forall i :: 0 <= i < |s| ==> s[i].base != n
    ensures n !in chain
  {
    forall i | 0 <= i < |chain| ensures chain[i] != n {
      assert Spelled(chain, hs)[i].base == chain[i];
    }
  }

  /** The offset of a new header is inside block `k`, where no header is. */
  lemma OffsetFree(s: seq<Block>, k: nat, n: nat)
    requires Tiles(s) && k < |s| && Splits(s[k], n)
    ensures forall i :: 0 <= i < |s| ==> s[i].base != s[k].base + HEADER + n && s[i].base != s[k].base + HEADER + n + SHADOW
  {
    forall i | 0 <= i < |s|
      ensures s[i].base != s[k].base + HEADER + n && s[i].base != s[k].base + HEADER + n + SHADOW
    {
      if i < k {
        Ordered(s, i, k);
      } else if k < i {
        Ordered(s, k, i);
      }
    }
  }

  lemma ChargedAfter(before: Stats, st: Stats, size: nat)
    requires st == before.(blocks := st.blocks)
    ensures Charged(before, size, st.blocks - before.blocks)
            == st.(used := (st.used + size) % U64_LIMIT, free := (st.free - size) % U64_LIMIT, allocs := Bump(st.allocs))
  {
  }

  lemma RemovedFrom(chain: seq<nat>, k: nat)
    requires k < |chain|
    ensures forall x :: x in chain && x != chain[k] ==> x in Remove(chain, k)
    ensures forall x :: x in Remove(chain, k) ==> x in chain
  {
    var c := Remove(chain, k);
    forall i | 0 <= i < |chain| && i != k ensures chain[i] in c {
      assert c[if i < k then i else i - 1] == chain[i];
    }
  }

  lemma RefundedAfter(before: Stats, st: Stats, size: nat)
    requires st == before.(used := (before.used - size) % U64_LIMIT, free := (before.free + size) % U64_LIMIT,
                           frees := Bump(before.frees), blocks := st.blocks)
    ensures Refunded(before, size, before.blocks - st.blocks) == st
  {
  }
}
