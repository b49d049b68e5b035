/**
 Who may attach to a shared window: exactly the owner and the domains the share named. And what a creator that drops
 its reference twice does to a window.
 */
module FabricEffects {
  import opened Types
  import opened FreeBlocks
  import T = TensorSpec
  import P = TensorProofs
  import opened FabricSpec
  import opened FabricProofs

  predicate Granted(owner: nat, readers: bv32, writers: bv32, domain: nat, write: bool) {
    domain == owner || !Lacks(writers, domain) || (!write && !Lacks(readers, domain))
  }

  lemma ShiftsApart(i: nat, j: nat)
    requires i < j < 32
    ensures ((1 as bv32) << i) & ((1 as bv32) << j) == 0
  {
  }

  lemma BitsApart(a: nat, b: nat)
    requires 1 <= a < b <= 32
    ensures Bit(a) & Bit(b) == 0
  {
    ShiftsApart(a - 1, b - 1);
  }

  lemma BitSet(a: nat)
    requires 1 <= a <= 32
    ensures Bit(a) != 0
  {
  }

  function Or(x: bv32, y: bv32): bv32 { x | y }
  function And(x: bv32, y: bv32): bv32 { x & y }
  predicate Meets(x: bv32, y: bv32) { And(x, y) != 0 }

  lemma AndOfOr(x: bv32, y: bv32, z: bv32)
    ensures And(Or(x, y), z) == Or(And(x, z), And(y, z))
  {
  }

  lemma OrIsZero(x: bv32, y: bv32)
    ensures Or(x, y) == 0 <==> x == 0 && y == 0
  {
  }

  lemma MeetsOr(x: bv32, y: bv32, z: bv32)
    ensures Meets(Or(x, y), z) <==> Meets(x, z) || Meets(y, z)
  {
    hide Or, And;
    AndOfOr(x, y, z);
    OrIsZero(And(x, z), And(y, z));
  }

  lemma LacksMeets(x: bv32, d: nat)
    ensures Lacks(x, d) <==> !Meets(x, Bit(d))
  {
    hide Bit;
  }

  lemma MasksAreOrs(owner: nat, readers: bv32, writers: bv32)
    ensures ReadMask(owner, readers, writers) == Or(Or(readers, Bit(owner)), writers)
    ensures WriteMask(owner, writers) == Or(writers, Bit(owner))
  {
    hide Bit;
  }

  lemma LacksOwn(a: nat, d: nat)
    requires 1 <= d <= 32
    ensures Lacks(Bit(a), d) <==> a != d
  {
    if 1 <= a < d {
      BitsApart(a, d);
    } else if d < a <= 32 {
      BitsApart(d, a);
      Commutes(Bit(a), Bit(d));
    } else if a == d {
      BitSet(d);
    }
  }

  lemma Commutes(x: bv32, y: bv32)
    ensures x & y == y & x && x & x == x
  {
  }

  /** The masks of a new window say exactly who was named. */
  lemma WindowMasks(owner: nat, readers: bv32, writers: bv32, d: nat)
    requires 1 <= d <= 32
    ensures !Lacks(ReadMask(owner, readers, writers), d) <==> Granted(owner, readers, writers, d, false)
    ensures !Lacks(WriteMask(owner, writers), d) <==> Granted(owner, readers, writers, d, true)
  {
    hide Lacks, Bit, Or, Meets, ReadMask, WriteMask;
    MasksAreOrs(owner, readers, writers);
    MeetsOr(Or(readers, Bit(owner)), writers, Bit(d));
    MeetsOr(readers, Bit(owner), Bit(d));
    MeetsOr(writers, Bit(owner), Bit(d));
    LacksOwn(owner, d);
    LacksMeets(Bit(owner), d);
    LacksMeets(readers, d);
    LacksMeets(writers, d);
    LacksMeets(ReadMask(owner, readers, writers), d);
    LacksMeets(WriteMask(owner, writers), d);
  }

  lemma {:induction false} DomainStays(ds: seq<Domain>, mask: bv32, up: bool, id: nat)
    ensures FindDomain(AccountAll(ds, mask, up), id) == FindDomain(ds, id)
  {
    hide Lacks;
    var es := AccountAll(ds, mask, up);
    if ds != [] {
      assert es[1..] == AccountAll(ds[1..], mask, up);
      DomainStays(ds[1..], mask, up, id);
      SameDomain(ds[0], mask, up);
    }
  }

  lemma SameDomain(d: Domain, mask: bv32, up: bool)
    ensures Account(d, mask, up).id == d.id && Account(d, mask, up).active == d.active
  {
  }

  /** The new window goes to `slot`; that is where its id is found exactly when no earlier active window has it. */
  lemma FoundAtSlotIff(ws: seq<Window>, slot: nat, w: Window)
    requires slot <= |ws| && w.active
    ensures FindWindow(PutWindow(ws, slot, w), w.id) == Some(slot) <==> Unclaimed(ws, slot, w.id)
  {
    var vs := PutWindow(ws, slot, w);
    assert vs[slot] == w && forall j :: 0 <= j < slot ==> vs[j] == ws[j];
  }

  /** No active window before `n` has the id. */
  predicate Unclaimed(ws: seq<Window>, n: nat, id: nat)
    requires n <= |ws|
  {
    forall j :: 0 <= j < n ==> !(ws[j].active && ws[j].id == id)
  }

  /**
   A share gives its window an id that leads back to it exactly when no active window in an earlier slot has that id.
   Ids are 32-bit counters that wrap, so this can fail only after 2^32 shares (`RunIds`).
   */
  lemma ShareFoundIff(f: Fabric, owner: U32, tensorId: U32, readers: bv32, writers: bv32)
    requires T.Shaped(f.mem) && Share(f, owner, tensorId, readers, writers).1 == Ok
    ensures FreeSlot(f.windows).Some?
    ensures FindWindow(Share(f, owner, tensorId, readers, writers).0.windows, f.nextWindowId) == FreeSlot(f.windows)
            <==> Unclaimed(f.windows, FreeSlot(f.windows).value, f.nextWindowId)
  {
    hide Share, FindWindow, PutWindow, AccountAll, FreeSlot, ReadMask, WriteMask, T.Shaped, Unclaimed;
    var slot, w, mask := ShareShape(f, owner, tensorId, readers, writers);
    FoundAtSlotIff(f.windows, slot, w);
  }

  /** What a successful share leaves in the tables. */
  lemma ShareShape(f: Fabric, owner: U32, tensorId: U32, readers: bv32, writers: bv32) returns (slot: nat, w: Window, mask: bv32)
    requires T.Shaped(f.mem) && Share(f, owner, tensorId, readers, writers).1 == Ok
    ensures slot <= |f.windows| && w.active && w.id == f.nextWindowId && FreeSlot(f.windows) == Some(slot)
    ensures w.readers == ReadMask(owner, readers, writers) && w.writers == WriteMask(owner, writers)
    ensures Share(f, owner, tensorId, readers, writers).0.windows == PutWindow(f.windows, slot, w)
    ensures Share(f, owner, tensorId, readers, writers).0.domains == AccountAll(f.domains, mask, true)
  {
    hide T.Shaped, T.Ref, T.Unref, FindDomain, PutWindow, AccountAll, ReadMask, WriteMask;
    var t := f.mem.tensors[T.FindTensor(f.mem.tensors, tensorId).value];
    w := NewWindow(f.nextWindowId, owner, t, readers, writers);
    slot := FreeSlot(f.windows).value;
    mask := w.readers | w.writers;
  }

  /**
   Right after a successful share whose id leads back to its window, every open domain may attach exactly as the share
   said: the owner and the writers either way, the readers for reading only, and nobody else.
   */
  lemma ShareGrants(f: Fabric, owner: U32, tensorId: U32, readers: bv32, writers: bv32, domain: U32, write: bool)
    requires T.Shaped(f.mem) && Share(f, owner, tensorId, readers, writers).1 == Ok
    requires f.nextWindowId < U32_LIMIT && FreeSlot(f.windows).Some?
    requires Unclaimed(f.windows, FreeSlot(f.windows).value, f.nextWindowId)
    requires 1 <= domain <= 32 && FindDomain(f.domains, domain).Some?
    ensures Attach(Share(f, owner, tensorId, readers, writers).0, f.nextWindowId, domain, write).1
            == if Granted(owner, readers, writers, domain, write) then Ok else Perm
  {
    hide Lacks, Bit, Nameless, T.Shaped, Share, FindWindow, FindDomain, PutWindow, AccountAll, Granted, ReadMask, WriteMask, Unclaimed,
         FreeSlot;
    var slot, w, mask := ShareShape(f, owner, tensorId, readers, writers);
    WindowMasks(owner, readers, writers, domain);
    DomainStays(f.domains, mask, true, domain);
    FoundAtSlotIff(f.windows, slot, w);
    PutAt(f.windows, slot, w);
    Named(domain);
    GrantedForWriting(owner, readers, writers, domain);
  }

  lemma Named(domain: nat)
    requires 1 <= domain <= 32
    ensures !Nameless(domain)
  {
    BitSet(domain);
  }

  lemma GrantedForWriting(owner: nat, readers: bv32, writers: bv32, domain: nat)
    ensures Granted(owner, readers, writers, domain, true) ==> Granted(owner, readers, writers, domain, false)
  {
  }

  lemma PutAt(ws: seq<Window>, i: nat, w: Window)
    requires i <= |ws|
    ensures i < |PutWindow(ws, i, w)| && PutWindow(ws, i, w)[i] == w
  {
  }

  // ---------- window ids over whole runs ----------

  /** Every active window has an id that was given out. */
  ghost predicate IdsBelow(f: Fabric) {
    forall j :: 0 <= j < |f.windows| && f.windows[j].active ==> f.windows[j].id < f.nextWindowId
  }

  lemma ShareIds(f: Fabric, owner: U32, tensorId: U32, readers: bv32, writers: bv32)
    requires T.Shaped(f.mem) && IdsBelow(f) && f.nextWindowId + 1 < U32_LIMIT
    ensures var f' := Share(f, owner, tensorId, readers, writers).0;
            IdsBelow(f') && f.nextWindowId <= f'.nextWindowId <= f.nextWindowId + 1
  {
    hide T.Shaped, T.Ref, T.Unref, FindDomain, AccountAll, ReadMask, WriteMask;
  }

  lemma StepIds(w: World, pools: seq<seq<Block>>, op: Op)
    requires WorldInv(w, pools) && IdsBelow(w.f) && w.f.nextWindowId + 1 < U32_LIMIT && T.Shaped(w.f.mem)
    ensures var f' := Step(w, op).f; IdsBelow(f') && f'.nextWindowId <= w.f.nextWindowId + 1
  {
    hide T.Shaped, T.Alloc, T.Free, T.Unref, Share, FindDomain, AccountAll, Lacks, Nameless, WorldInv;
    match op
    case ShareOp(owner, tensorId, readers, writers) => ShareIds(w.f, owner, tensorId, readers, writers);
    case _ =>
  }

  lemma {:induction false} RunIds(w: World, pools: seq<seq<Block>>, ops: seq<Op>)
    requires WorldInv(w, pools) && Legal(w, pools, ops) && IdsBelow(w.f) && w.f.nextWindowId + |ops| < U32_LIMIT
    ensures var f' := Run(w, pools, ops).f; IdsBelow(f') && f'.nextWindowId <= w.f.nextWindowId + |ops|
    decreases |ops|
  {
    hide IdsBelow, WorldInv, Allowed;
    if ops != [] {
      StepKeeps(w, pools, ops[0]);
      Shapes(w, pools);
      StepIds(w, pools, ops[0]);
      RunIds(Step(w, ops[0]), pools, ops[1..]);
    }
  }

  lemma Shapes(w: World, pools: seq<seq<Block>>)
    requires WorldInv(w, pools)
    ensures T.Shaped(w.f.mem)
  {
    hide P.TensorsOk, P.RegionOk, P.PoolsOk, P.StatsOk;
  }

  lemma FreshId(f: Fabric, n: nat)
    requires IdsBelow(f) && n <= |f.windows|
    ensures Unclaimed(f.windows, n, f.nextWindowId)
  {
  }

  /**
   After any legal run in which the ids were not used up, a share grants exactly what it says: the new window is
   found under its id, and the owner, the writers and the readers may attach as named, and nobody else.
   */
  lemma RunGrants(w: World, pools: seq<seq<Block>>, ops: seq<Op>,
                  owner: U32, tensorId: U32, readers: bv32, writers: bv32, domain: U32, write: bool)
    requires WorldInv(w, pools) && Legal(w, pools, ops) && IdsBelow(w.f) && w.f.nextWindowId + |ops| < U32_LIMIT
    requires T.Shaped(Run(w, pools, ops).f.mem) && Share(Run(w, pools, ops).f, owner, tensorId, readers, writers).1 == Ok
    requires 1 <= domain <= 32 && FindDomain(Run(w, pools, ops).f.domains, domain).Some?
    ensures var f := Run(w, pools, ops).f;
            && f.nextWindowId < U32_LIMIT
            && Attach(Share(f, owner, tensorId, readers, writers).0, f.nextWindowId, domain, write).1
               == if Granted(owner, readers, writers, domain, write) then Ok else Perm
  {
    hide Run, Legal, WorldInv, Share, Attach, Granted, T.Shaped, FindDomain, IdsBelow, Unclaimed, FreeSlot;
    RunIds(w, pools, ops);
    var f := Run(w, pools, ops).f;
    var slot, win, mask := ShareShape(f, owner, tensorId, readers, writers);
    FreshId(f, slot);
    ShareGrants(f, owner, tensorId, readers, writers, domain, write);
  }

  // ---------- why a creator may drop its reference only once ----------

  /** A second drop by the creator frees a tensor that an active window still names. */
  lemma SecondDropOrphans(w: World, pools: seq<seq<Block>>, i: nat, j: nat)
    requires WorldInv(w, pools) && w.f.mem.blocksUsed < T.MAX_BLOCKS
    requires i < |w.f.mem.tensors| && w.f.mem.tensors[i].id in w.held && w.f.mem.tensors[i].id < U32_LIMIT
    requires j < |w.f.windows| && Names(w.f.windows[j], w.f.mem.tensors[i].id) && Uses(w.f.windows, w.f.mem.tensors[i].id) == 1
    ensures T.Shaped(w.f.mem)
    ensures var id := w.f.mem.tensors[i].id; var w1 := Step(w, Drop(id));
            && Allowed(w, Drop(id)) && !Allowed(w1, Drop(id)) && T.Shaped(w1.f.mem)
            && Names(Step(w1, Drop(id)).f.windows[j], id) && !Live(Step(w1, Drop(id)).f.mem.tensors, id)
  {
    hide P.Inv, P.TensorsOk, T.Shaped, Live, Count, T.Released;
    var st, id := w.f.mem, w.f.mem.tensors[i].id;
    P.InvFacts(st, pools);
    FindUnique(st.tensors, st.nextId, i);
    var st1 := T.SetRef(st, i, 1);
    P.SetRefKeepsInv(st, pools, i, 1);
    P.InvFacts(st1, pools);
    FindUnique(st1.tensors, st1.nextId, i);
    Removed(st1, i);
  }

  lemma Removed(st: T.State, i: nat)
    requires T.Shaped(st) && i < |st.tensors| && P.TensorsOk(st.tensors, st.nextId)
    ensures !Live(T.Released(st, i).tensors, st.tensors[i].id)
  {
    SwappedOut(st.tensors, st.nextId, i);
  }

  lemma SwappedOut(ts: seq<T.Tensor>, nextId: nat, i: nat)
    requires P.TensorsOk(ts, nextId) && i < |ts|
    ensures !Live(T.SwapRemove(ts, i), ts[i].id)
  {
  }
}
