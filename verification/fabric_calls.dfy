/** What each call of the memory fabric leaves in its tables: the window of a share, its users, its end, and new domains. */
module FabricCalls {
  import opened Types
  import opened FreeBlocks
  import T = TensorSpec
  import P = TensorProofs
  import opened FabricSpec
  import opened FabricProofs
  import opened FabricEffects

  /** Window `k` is the first active one with the id. */
  ghost predicate Found(f: Fabric, id: nat, k: nat) {
    && k < |f.windows| && f.windows[k].active && f.windows[k].id == id
    && forall j :: 0 <= j < k ==> !(f.windows[j].active && f.windows[j].id == id)
  }

  ghost predicate Shared(f: Fabric, id: nat) {
    exists k :: 0 <= k < |f.windows| && f.windows[k].active && f.windows[k].id == id
  }

  ghost predicate DomainOpen(f: Fabric, id: nat) {
    exists k :: 0 <= k < |f.domains| && f.domains[k].active && f.domains[k].id == id
  }

  /** Some slot of the window table is free. */
  ghost predicate Room(f: Fabric) {
    |f.windows| < 64 || exists k :: 0 <= k < |f.windows| && !f.windows[k].active
  }

  lemma FindsFirst(f: Fabric, id: nat)
    ensures FindWindow(f.windows, id).Some? <==> Shared(f, id)
    ensures forall k: nat :: Found(f, id, k) ==> FindWindow(f.windows, id) == Some(k)
  {
    var r := FindWindow(f.windows, id);
    if r.Some? {
      assert Found(f, id, r.value);
    }
  }

  lemma FindsDomain(f: Fabric, id: nat)
    ensures FindDomain(f.domains, id).Some? <==> DomainOpen(f, id)
  {
    var r := FindDomain(f.domains, id);
  }

  lemma FindsRoom(f: Fabric)
    ensures FreeSlot(f.windows).Some? <==> Room(f)
  {
    var r := FreeSlot(f.windows);
  }

  /** A tensor id that can be shared. */
  ghost predicate TensorLive(f: Fabric, id: nat) { id != 0 && Live(f.mem.tensors, id) }

  /**
   memory_fabric_window_share succeeds exactly for a live tensor, an open owner and a free slot. The window it leaves has
   the size of the tensor, the named owner and one user.
   */
  lemma ShareMeans(f: Fabric, owner: U32, tensorId: U32, readers: bv32, writers: bv32) returns (slot: nat, i: nat)
    requires T.Shaped(f.mem)
    ensures var (f', status) := Share(f, owner, tensorId, readers, writers);
            && status == (if !TensorLive(f, tensorId) || !DomainOpen(f, owner) then Inval else if !Room(f) then Busy else Ok)
            && (status == Ok ==>
                  && slot <= |f.windows| && (slot < |f.windows| ==> !f.windows[slot].active)
                  && i < |f.mem.tensors| && f.mem.tensors[i].id == tensorId
                  && f'.windows == PutWindow(f.windows, slot, Window(f.nextWindowId, tensorId, owner, f.mem.tensors[i].size,
                                                                     ReadMask(owner, readers, writers), WriteMask(owner, writers), true, 1))
                  && f'.nextWindowId == (f.nextWindowId + 1) % U32_LIMIT && f'.nextDomainId == f.nextDomainId)
  {
    hide T.Shaped, T.Ref, T.Unref, T.FindTensor, FindDomain, PutWindow, AccountAll, ReadMask, WriteMask, FreeSlot, DomainOpen, Room,
         TensorLive;
    FindsDomain(f, owner);
    FindsRoom(f);
    FindsTensor(f, tensorId);
    slot, i := 0, 0;
    if Share(f, owner, tensorId, readers, writers).1 == Ok {
      slot, i := FreeSlot(f.windows).value, T.FindTensor(f.mem.tensors, tensorId).value;
    }
  }

  lemma FindsTensor(f: Fabric, id: nat)
    ensures id != 0 && T.FindTensor(f.mem.tensors, id).Some? <==> TensorLive(f, id)
  {
    var r := T.FindTensor(f.mem.tensors, id);
  }

  /**
   memory_fabric_window_attach: a domain number from 1 to 32 that is open, and an active window that names it, for writing
   among its writers. Then exactly the user count of that window rises, up to 65535; every refusal changes nothing.
   */
  lemma AttachMeans(f: Fabric, windowId: U32, domainId: U32, write: bool)
    ensures var (f', status) := Attach(f, windowId, domainId, write);
            && (!(1 <= domainId <= 32) || !Shared(f, windowId) || !DomainOpen(f, domainId) ==> status == Inval)
            && (status != Ok ==> f' == f)
            && forall k: nat :: Found(f, windowId, k) && 1 <= domainId <= 32 && DomainOpen(f, domainId) ==>
                 var w := f.windows[k];
                 && status == (if Lacks(w.readers, domainId) || (write && Lacks(w.writers, domainId)) then Perm else Ok)
                 && (status == Ok ==> f' == f.(windows := f.windows[k := w.(mapCount := if w.mapCount >= 65535 then 65535 else w.mapCount + 1)]))
  {
    hide Lacks, Nameless, FindDomain, DomainOpen;
    FindsFirst(f, windowId);
    FindsDomain(f, domainId);
    NamelessIs(domainId);
  }

  /** Domain `d` has bit `d - 1` of a mask. */
  lemma BitIs()
    ensures Bit(1) == 0x1 && Bit(2) == 0x2 && Bit(3) == 0x4 && Bit(4) == 0x8 && Bit(5) == 0x10 && Bit(6) == 0x20 && Bit(7) == 0x40 && Bit(8) == 0x80
    ensures Bit(9) == 0x100 && Bit(10) == 0x200 && Bit(11) == 0x400 && Bit(12) == 0x800 && Bit(13) == 0x1000 && Bit(14) == 0x2000 && Bit(15) == 0x4000 && Bit(16) == 0x8000
    ensures Bit(17) == 0x10000 && Bit(18) == 0x20000 && Bit(19) == 0x40000 && Bit(20) == 0x80000 && Bit(21) == 0x100000 && Bit(22) == 0x200000 && Bit(23) == 0x400000 && Bit(24) == 0x800000
    ensures Bit(25) == 0x1000000 && Bit(26) == 0x2000000 && Bit(27) == 0x4000000 && Bit(28) == 0x8000000 && Bit(29) == 0x10000000 && Bit(30) == 0x20000000 && Bit(31) == 0x40000000 && Bit(32) == 0x80000000
  {
  }

  lemma NamelessIs(domainId: nat)
    ensures Nameless(domainId) <==> !(1 <= domainId <= 32)
  {
    if 1 <= domainId <= 32 {
      Named(domainId);
    }
  }

  /** memory_fabric_window_release: the window is closed for everybody and its one reference on the tensor is dropped. */
  lemma ReleaseMeans(f: Fabric, windowId: U32)
    requires T.Shaped(f.mem)
    ensures var (f', status) := Release(f, windowId);
            && (!Shared(f, windowId) ==> status == Inval && f' == f)
            && forall k: nat :: Found(f, windowId, k) ==>
                 && (f'.mem, status) == T.Unref(f.mem, f.windows[k].tensorId)
                 && f'.windows == f.windows[k := f.windows[k].(active := false, readers := 0, writers := 0, mapCount := 0)]
                 && f'.nextWindowId == f.nextWindowId && f'.nextDomainId == f.nextDomainId
  {
    hide T.Shaped, T.Unref, AccountAll;
    FindsFirst(f, windowId);
  }

  /** Nobody attaches to a released window, unless another one answers to its id. */
  lemma ReleasedIsClosed(f: Fabric, windowId: U32, domainId: U32, write: bool, k: nat)
    requires T.Shaped(f.mem) && Found(f, windowId, k)
    requires forall j :: k < j < |f.windows| ==> !(f.windows[j].active && f.windows[j].id == windowId)
    ensures Attach(Release(f, windowId).0, windowId, domainId, write).1 == Inval
  {
    hide T.Shaped, T.Unref, AccountAll, Lacks, Nameless, Release, Attach;
    ReleaseMeans(f, windowId);
    var f' := Release(f, windowId).0;
    assert !Shared(f', windowId);
    AttachMeans(f', windowId, domainId, write);
  }

  /** memory_fabric_domain_open: the next number, nobody attached; refused exactly when all sixteen are taken. */
  lemma OpenMeans(f: Fabric, budgetKib: U32)
    ensures var (f', status) := Open(f, budgetKib);
            if |f.domains| < 16 then
              && status == Ok && |f'.domains| == |f.domains| + 1 && f'.domains[..|f.domains|] == f.domains
              && f'.domains[|f.domains|].id == f.nextDomainId && f'.domains[|f.domains|].active
              && f'.domains[|f.domains|].budgetKib == budgetKib && f'.domains[|f.domains|].attached == 0
              && f'.nextDomainId == (f.nextDomainId + 1) % U32_LIMIT && f'.windows == f.windows && f'.mem == f.mem
            else status == Busy && f' == f
  {
  }
}
