/**
 Where the tensor manager stops keeping its promises: the block descriptors run out, because none is ever given
 back, and requests beyond 4 GiB are truncated. Both are reached from a manager that has just been initialised.
 */
module TensorLimits {
  import opened Types
  import opened LinkedList
  import opened FreeBlocks
  import opened Alignment
  import opened TensorSpec
  import opened TensorProofs
  import opened TensorTheorems
  import opened TensorBoot

  const MODEL_REGION: nat := 2

  lemma FoundAt(st: State, pools: seq<seq<Block>>, i: nat)
    requires Inv(st, pools) && i < |st.tensors|
    ensures FindTensor(st.tensors, st.tensors[i].id) == Some(i)
  {
    assert TensorsOk(st.tensors, st.nextId);
  }

  ghost predicate Lives(st: State, id: nat) {
    exists j :: 0 <= j < |st.tensors| && st.tensors[j].id == id
  }

  /** Dropping the last reference returns the tensor exactly while a descriptor is left; otherwise it stays in the table. */
  lemma LastFreeOkIff(st: State, pools: seq<seq<Block>>, i: nat)
    requires Inv(st, pools) && i < |st.tensors| && st.tensors[i].refCount <= 1
    ensures var id := st.tensors[i].id; var (st', status) := Free(st, id);
            && (status == Ok <==> st.blocksUsed < MAX_BLOCKS) && (status == Ok <==> !Lives(st', id))
            && (status != Ok ==> status == NoMem && st' == st)
  {
    var id := st.tensors[i].id;
    FoundAt(st, pools, i);
    RemovedIsGone(st, pools, i);
  }

  lemma LastUnrefOkIff(st: State, pools: seq<seq<Block>>, i: nat)
    requires Inv(st, pools) && i < |st.tensors| && st.tensors[i].refCount == 1
    ensures var id := st.tensors[i].id; var (st', status) := Unref(st, id);
            && (status == Ok <==> st.blocksUsed < MAX_BLOCKS) && (status == Ok <==> !Lives(st', id))
            && (status != Ok ==> status == NoMem && st' == SetRef(st, i, 0))
  {
    FoundAt(st, pools, i);
    SetRefKeepsInv(st, pools, i, 0);
    LastFreeOkIff(SetRef(st, i, 0), pools, i);
  }

  lemma RemovedIsGone(st: State, pools: seq<seq<Block>>, i: nat)
    requires Inv(st, pools) && i < |st.tensors|
    ensures !Lives(Released(st, i), st.tensors[i].id)
  {
    assert TensorsOk(st.tensors, st.nextId);
  }

  // ---------- a run that uses up the descriptors ----------

  function ModelBlock(base: nat): Block { Block(base + 256 * MIB, 512 * MIB, true) }

  lemma ModelPool(base: nat)
    requires base <= USER_BASE
    ensures PoolLists(base, POOLS)[MODEL_REGION] == [ModelBlock(base)]
  {
    PoolOffsets();
  }

  /** A request for 64 bytes of model memory, which the whole pool can serve with or without a descriptor. */
  lemma ModelRequest(st: State, pools: seq<seq<Block>>, base: nat)
    requires Inv(st, pools) && base <= USER_BASE && base % HUGE_PAGE_SIZE == 0
    requires st.free[MODEL_REGION] == [ModelBlock(base)] && |st.tensors| < MAX_TENSORS
    ensures Alloc(st, 64, 64, MODEL_REGION, ShortTerm).status == Ok
  {
    var b := ModelBlock(base);
    PowersOfTwo();
    assert b.base % 64 == 0 by {
      Divides(b.base, 64, HUGE_PAGE_SIZE);
    }
    RoundedAsIs(64, 64);
    FeasibleAtBase(b, 64, 64);
    FirstIsBest(st.free[MODEL_REGION], 64, 64);
    BestFitComplete(st, pools, MODEL_REGION, 64, 64);
    AllocOkIff(st, pools, 64, 64, MODEL_REGION, ShortTerm);
  }

  /** The manager after `ops`, with everything returned again. */
  ghost predicate AllReturned(base: nat, used: nat, ops: seq<Op>)
    requires base <= USER_BASE && used <= MAX_BLOCKS
  {
    BootInv(base, used);
    var st := Run(BootState(base, used), ops);
    st.free == PoolLists(base, POOLS) && st.tensors == []
  }

  /** The manager after `ops` has one live tensor, `id`, and no descriptor to return it with. */
  ghost predicate Exhausted(base: nat, used: nat, ops: seq<Op>, id: nat)
    requires base <= USER_BASE && used <= MAX_BLOCKS
  {
    BootInv(base, used);
    var st := Run(BootState(base, used), ops);
    && |st.tensors| == 1 && st.tensors[0].id == id && st.tensors[0].refCount == 1
    && Free(st, id) == (st, NoMem) && Unref(st, id) == (SetRef(st, 0, 0), NoMem)
  }

  /** Every initialised manager can be driven to the point where a live tensor cannot be returned any more. */
  lemma DescriptorsRunOut(base: nat, used: nat) returns (ops: seq<Op>, id: nat)
    requires base <= USER_BASE && base % HUGE_PAGE_SIZE == 0 && used <= MAX_BLOCKS
    ensures Exhausted(base, used, ops, id)
  {
    BootInv(base, used);
    ops, id := RunOutFrom(base, used, []);
  }

  lemma {:induction false} RunOutFrom(base: nat, used: nat, ops: seq<Op>) returns (more: seq<Op>, id: nat)
    requires base <= USER_BASE && base % HUGE_PAGE_SIZE == 0 && used <= MAX_BLOCKS && AllReturned(base, used, ops)
    ensures Exhausted(base, used, more, id)
    decreases (BootInv(base, used); MAX_BLOCKS - Run(BootState(base, used), ops).blocksUsed)
  {
    BootInv(base, used);
    var boot, pools := BootState(base, used), PoolLists(base, POOLS);
    var st := Run(boot, ops);
    RunKeepsInv(boot, pools, ops);
    ModelPool(base);
    ModelRequest(st, pools, base);
    var res := Alloc(st, 64, 64, MODEL_REGION, ShortTerm);
    AllocKeepsInv(st, pools, 64, 64, MODEL_REGION, ShortTerm);
    OneTensor(st, pools);
    id := res.tensor.value.id;
    var taken := ops + [AllocOp(64, 64, MODEL_REGION, ShortTerm)];
    RunOne(boot, ops, AllocOp(64, 64, MODEL_REGION, ShortTerm));
    if res.state.blocksUsed >= MAX_BLOCKS {
      LastFreeOkIff(res.state, pools, 0);
      LastUnrefOkIff(res.state, pools, 0);
      return taken, id;
    }
    AllocThenFree(st, pools, 64, 64, MODEL_REGION, ShortTerm);
    RunOne(boot, taken, FreeOp(id));
    FreeSpends(res.state, pools);
    more, id := RunOutFrom(base, used, taken + [FreeOp(id)]);
  }

  lemma RunOne(st: State, ops: seq<Op>, op: Op)
    requires Shaped(st)
    ensures Run(st, ops + [op]) == Step(Run(st, ops), op)
  {
    assert (ops + [op])[..|ops|] == ops;
  }

  lemma OneTensor(st: State, pools: seq<seq<Block>>)
    requires Inv(st, pools) && st.tensors == [] && Alloc(st, 64, 64, MODEL_REGION, ShortTerm).status == Ok
    ensures var res := Alloc(st, 64, 64, MODEL_REGION, ShortTerm);
            && res.state.tensors == [res.tensor.value] && res.tensor.value.refCount == 1
            && res.tensor.value.id < U32_LIMIT && res.state.blocksUsed >= st.blocksUsed
  {
    var k, cut := AllocIsTaken(st, 64, 64, MODEL_REGION, ShortTerm);
    NextIdBound(st, pools);
    assert st.tensors + [Alloc(st, 64, 64, MODEL_REGION, ShortTerm).tensor.value]
        == [Alloc(st, 64, 64, MODEL_REGION, ShortTerm).tensor.value];
  }

  lemma FreeSpends(st: State, pools: seq<seq<Block>>)
    requires Inv(st, pools) && |st.tensors| == 1 && st.tensors[0].refCount == 1 && st.blocksUsed < MAX_BLOCKS
    ensures Free(st, st.tensors[0].id).0.blocksUsed == st.blocksUsed + 1
  {
    FoundAt(st, pools, 0);
  }

  // ---------- a request that is truncated ----------

  /** An initialised manager grants a request of 4 GiB and 64 bytes with a tensor smaller than 4 GiB. */
  lemma OversizedGranted(base: nat, used: nat)
    requires base <= USER_BASE && base % HUGE_PAGE_SIZE == 0 && used <= MAX_BLOCKS
    ensures Shaped(BootState(base, used))
    ensures var small := Alloc(BootState(base, used), 64, 64, MODEL_REGION, ShortTerm);
            var large := Alloc(BootState(base, used), U32_LIMIT + 64, 64, MODEL_REGION, ShortTerm);
            large == small && large.status == Ok && large.tensor.value.size < U32_LIMIT + 64
  {
    BootInv(base, used);
    var st, pools := BootState(base, used), PoolLists(base, POOLS);
    ModelPool(base);
    ModelRequest(st, pools, base);
    OversizedTwin(st, 64, 64, MODEL_REGION, ShortTerm);
    AllocatedTensor(st, pools, U32_LIMIT + 64, 64, MODEL_REGION, ShortTerm);
  }
}
