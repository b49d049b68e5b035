/**
 Where the memory fabric fails, reached by short runs over a tensor manager that has just been initialised and a
 fabric that has just seeded its domains.
 */
module FabricWitnesses {
  import opened Types
  import opened FreeBlocks
  import T = TensorSpec
  import P = TensorProofs
  import Q = TensorTheorems
  import B = TensorBoot
  import L = TensorLimits
  import opened FabricSpec
  import opened FabricProofs
  import opened FabricEffects
  import opened FabricAccounts

  /** seed_default_domains: one domain per budget, numbered from 1. */
  function Seeded(budgets: seq<U32>): (ds: seq<Domain>)
    ensures |ds| == |budgets| && forall i :: 0 <= i < |ds| ==> ds[i] == Domain(i + 1, true, budgets[i], 0)
  {
    seq(|budgets|, i requires 0 <= i < |budgets| => Domain(i + 1, true, budgets[i], 0))
  }

  /** memory_fabric_init over an initialised tensor manager. */
  function Booted(base: nat, used: nat, budgets: seq<U32>): World {
    World(Fabric(B.BootState(base, used), [], 1, Seeded(budgets), |budgets| + 1), {})
  }

  /** tensor_mm_init spends at most 12 descriptors, and memory_fabric_init leaves room for another domain. */
  ghost predicate Boots(base: nat, used: nat, budgets: seq<U32>) {
    base <= USER_BASE && base % HUGE_PAGE_SIZE == 0 && used <= 12 && 0 < |budgets| < MAX_DOMAINS
  }

  function Pools(base: nat): seq<seq<Block>> { B.PoolLists(base, B.POOLS) }

  const FIRST: U32 := 1
  const TAKE := Create(64, 64, L.MODEL_REGION, T.ShortTerm)

  lemma BootedInv(base: nat, used: nat, budgets: seq<U32>)
    requires Boots(base, used, budgets)
    ensures WorldInv(Booted(base, used, budgets), Pools(base)) && Exact(Booted(base, used, budgets).f)
    ensures T.Shaped(Booted(base, used, budgets).f.mem)
  {
    hide P.Inv;
    B.BootInv(base, used);
    FreshWorld(B.BootState(base, used), Pools(base), Seeded(budgets), |budgets| + 1);
    ShapedWorld(Booted(base, used, budgets), Pools(base));
  }

  /** After the first allocation one tensor, number 1, is held by its creator. */
  ghost predicate Taken(w: World, budgets: seq<U32>) {
    && T.Shaped(w.f.mem) && |w.f.mem.tensors| == 1 && w.f.mem.tensors[0].id == FIRST && w.held == {FIRST}
    && w.f.mem.blocksUsed < T.MAX_BLOCKS
    && w.f.windows == [] && w.f.nextWindowId == 1 && w.f.domains == Seeded(budgets) && w.f.nextDomainId == |budgets| + 1
  }

  lemma TakeFirst(base: nat, used: nat, budgets: seq<U32>)
    requires Boots(base, used, budgets)
    ensures T.Shaped(Booted(base, used, budgets).f.mem)
    ensures Taken(Step(Booted(base, used, budgets), TAKE), budgets)
  {
    hide P.Inv, T.Alloc, B.PoolLists, Seeded;
    BootedInv(base, used, budgets);
    var st := B.BootState(base, used);
    B.BootInv(base, used);
    L.ModelPool(base);
    L.ModelRequest(st, Pools(base), base);
    L.OneTensor(st, Pools(base));
    FirstIs(st, Pools(base));
  }

  lemma FirstIs(st: T.State, pools: seq<seq<Block>>)
    requires P.Inv(st, pools) && T.Shaped(st) && T.Alloc(st, 64, 64, L.MODEL_REGION, T.ShortTerm).status == Ok
    ensures var res := T.Alloc(st, 64, 64, L.MODEL_REGION, T.ShortTerm);
            && res.tensor.value.id == st.nextId && T.Shaped(res.state) && res.state.blocksUsed <= st.blocksUsed + 2
  {
    hide P.Inv, T.Alloc;
    var k, cut := Q.AllocIsTaken(st, 64, 64, L.MODEL_REGION, T.ShortTerm);
  }

  /** Domain 1 shares that tensor with whoever is named. */
  ghost predicate Shared(w: World, budgets: seq<U32>, readers: bv32) {
    && T.Shaped(w.f.mem) && |w.f.mem.tensors| == 1 && w.f.mem.tensors[0].id == FIRST && w.held == {FIRST}
    && w.f.mem.blocksUsed < T.MAX_BLOCKS
    && |w.f.windows| == 1 && Names(w.f.windows[0], FIRST) && w.f.windows[0].readers == ReadMask(1, readers, 0)
    && |w.f.domains| == |budgets| && w.f.nextDomainId == |budgets| + 1
  }

  lemma ShareFirst(w: World, budgets: seq<U32>, readers: bv32)
    requires Taken(w, budgets) && 0 < |budgets| < MAX_DOMAINS
    ensures Shared(Step(w, ShareOp(1, FIRST, readers, 0)), budgets, readers)
  {
    hide ReadMask, WriteMask, AccountAll;
    assert T.FindTensor(w.f.mem.tensors, FIRST) == Some(0);
    assert FindDomain(w.f.domains, 1) == Some(0) by {
      assert w.f.domains[0] == Domain(1, true, budgets[0], 0);
    }
    assert FreeSlot(w.f.windows) == Some(0);
  }

  /** The world after the two calls, and that they are a legal run. */
  lemma SharedRun(base: nat, used: nat, budgets: seq<U32>, readers: bv32) returns (w: World)
    requires Boots(base, used, budgets)
    ensures WorldInv(Booted(base, used, budgets), Pools(base))
    ensures Legal(Booted(base, used, budgets), Pools(base), [TAKE, ShareOp(1, FIRST, readers, 0)])
    ensures w == Run(Booted(base, used, budgets), Pools(base), [TAKE, ShareOp(1, FIRST, readers, 0)])
    ensures WorldInv(w, Pools(base)) && Shared(w, budgets, readers) && Exact(w.f)
  {
    hide WorldInv, Step, T.Shaped, Shared, Taken, Booted, Pools, Exact, OpensNamed;
    BootedInv(base, used, budgets);
    TakeFirst(base, used, budgets);
    var w0, pools, ops := Booted(base, used, budgets), Pools(base), [TAKE, ShareOp(1, FIRST, readers, 0)];
    assert ops[1..] == [ops[1]] && [ops[1]][1..] == [];
    StepKeeps(w0, pools, ops[0]);
    StepKeepsExactIff(w0, pools, ops[0]);
    var w1 := Step(w0, ops[0]);
    ShapedWorld(w1, pools);
    ShareFirst(w1, budgets, readers);
    StepKeeps(w1, pools, ops[1]);
    StepKeepsExactIff(w1, pools, ops[1]);
    w := Step(w1, ops[1]);
    assert Legal(w, pools, []) && Run(w, pools, []) == w;
    assert Legal(w1, pools, ops[1..]) && Run(w1, pools, ops[1..]) == w;
  }

  lemma NamesNext(w: Window, budgets: seq<U32>)
    requires w.active && w.readers == ReadMask(1, Bit(|budgets| + 1), 0) && 0 < |budgets| < MAX_DOMAINS
    ensures Concerns(w, |budgets| + 1)
  {
    hide Lacks, Bit, ReadMask, WriteMask, Both;
    var d := |budgets| + 1;
    WindowMasks(1, Bit(d), 0, d);
    LacksOwn(d, d);
    MaskCovers(w, d);
  }

  lemma MaskCovers(w: Window, d: nat)
    requires !Lacks(w.readers, d)
    ensures !Lacks(Mask(w), d)
  {
    hide Lacks, Bit;
    MeetsOr(w.readers, w.writers, Bit(d));
    LacksMeets(w.readers, d);
    LacksMeets(Mask(w), d);
  }

  /**
   A share may name the number the next domain will get. Three calls after boot the count of that domain is wrong:
   the counts were right before it was opened and are not right after.
   */
  lemma EarlyNameReached(base: nat, used: nat, budgets: seq<U32>, budgetKib: U32) returns (w: World)
    requires Boots(base, used, budgets)
    ensures WorldInv(Booted(base, used, budgets), Pools(base))
    ensures Legal(Booted(base, used, budgets), Pools(base), [TAKE, ShareOp(1, FIRST, Bit(|budgets| + 1), 0)])
    ensures w == Run(Booted(base, used, budgets), Pools(base), [TAKE, ShareOp(1, FIRST, Bit(|budgets| + 1), 0)])
    ensures T.Shaped(w.f.mem) && Exact(w.f) && !Exact(Step(w, OpenOp(budgetKib)).f)
  {
    hide WorldInv, Run, Legal, Booted, Pools, Exact, Naming, Bit, T.Shaped, ReadMask, Concerns;
    w := SharedRun(base, used, budgets, Bit(|budgets| + 1));
    NamesNext(w.f.windows[0], budgets);
    EarlyNameMiscounts(w.f, budgetKib, 0);
  }

  /**
   Two calls after boot a creator that drops its reference twice (the second time without one) leaves an active
   window on a tensor that has been returned.
   */
  lemma SecondDropReached(base: nat, used: nat, budgets: seq<U32>) returns (w: World)
    requires Boots(base, used, budgets)
    ensures WorldInv(Booted(base, used, budgets), Pools(base))
    ensures Legal(Booted(base, used, budgets), Pools(base), [TAKE, ShareOp(1, FIRST, 0, 0)])
    ensures w == Run(Booted(base, used, budgets), Pools(base), [TAKE, ShareOp(1, FIRST, 0, 0)])
    ensures T.Shaped(w.f.mem) && Allowed(w, Drop(FIRST)) && !Allowed(Step(w, Drop(FIRST)), Drop(FIRST))
    ensures T.Shaped(Step(w, Drop(FIRST)).f.mem)
    ensures var f := Step(Step(w, Drop(FIRST)), Drop(FIRST)).f;
            |f.windows| == 1 && Names(f.windows[0], FIRST) && !Live(f.mem.tensors, FIRST)
  {
    hide WorldInv, Run, Legal, Booted, Pools, Exact, ReadMask, Live;
    w := SharedRun(base, used, budgets, 0);
    assert Uses(w.f.windows, FIRST) == 1;
    SecondDropOrphans(w, Pools(base), 0, 0);
  }
}
