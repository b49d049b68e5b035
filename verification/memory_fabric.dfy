/**
 The memory fabric as the source runs it: window and domain tables scanned by loops on top of
 the tensor manager. Every call does to the abstract fabric exactly what FabricSpec says.
 */
module MemoryFabric {
  import opened Types
  import T = TensorSpec
  import P = TensorProofs
  import MM = TensorMM
  import opened FabricSpec

  lemma {:induction false} FindDomainIs(ds: seq<Domain>, id: nat, n: nat)
    requires n <= |ds| && forall j :: 0 <= j < n ==> !(ds[j].active && ds[j].id == id)
    requires n < |ds| ==> ds[n].active && ds[n].id == id
    ensures FindDomain(ds, id) == if n < |ds| then Some(n) else None
  {
    if n > 0 {
      FindDomainIs(ds[1..], id, n - 1);
    }
  }

  lemma {:induction false} FindWindowIs(ws: seq<Window>, id: nat, n: nat)
    requires n <= |ws| && forall j :: 0 <= j < n ==> !(ws[j].active && ws[j].id == id)
    requires n < |ws| ==> ws[n].active && ws[n].id == id
    ensures FindWindow(ws, id) == if n < |ws| then Some(n) else None
  {
    if n > 0 {
      FindWindowIs(ws[1..], id, n - 1);
    }
  }

  lemma {:induction false} FreeSlotIs(ws: seq<Window>, m: nat, n: nat)
    requires m <= n <= |ws| && forall j :: 0 <= j < n ==> ws[j].active
    requires n < |ws| ==> !ws[n].active
    ensures FreeSlotFrom(ws, m) == if n == |ws| && n >= MAX_WINDOWS then None else Some(n)
    decreases n - m
  {
    if m < n {
      FreeSlotIs(ws, m + 1, n);
    }
  }

  class FabricTables {
    const mm: MM.TensorManager
    const windows: array<Window>
    const domains: array<Domain>
    var windowCount: nat
    var domainCount: nat
    var nextWindowId: U32
    var nextDomainId: U32

    ghost predicate Tables()
      reads this, windows, domains
    {
      && windows.Length == MAX_WINDOWS && domains.Length == MAX_DOMAINS
      && windowCount <= MAX_WINDOWS && domainCount <= MAX_DOMAINS
      && (forall i :: 0 <= i < windowCount ==> windows[i].tensorId < U32_LIMIT)
    }

    ghost predicate Valid()
      reads this, windows, domains, mm, mm.lists, mm.table
    {
      Tables() && mm.Sound()
    }

    ghost function Abs(): (f: Fabric)
      requires Valid()
      reads this, windows, domains, mm, mm.lists, mm.table
      ensures T.Shaped(f.mem)
    {
      Fabric(mm.Abs(), windows[..windowCount], nextWindowId, domains[..domainCount], nextDomainId)
    }

    /** The zeroed tables, before any domain is opened. */
    constructor (mm: MM.TensorManager)
      requires mm.Sound()
      ensures Valid() && this.mm == mm && fresh(windows) && fresh(domains)
      ensures Abs() == Fabric(mm.Abs(), [], 1, [], 1)
    {
      this.mm := mm;
      windows := new Window[MAX_WINDOWS](_ => Window(0, 0, 0, 0, 0, 0, false, 0));
      domains := new Domain[MAX_DOMAINS](_ => Domain(0, false, 0, 0));
      windowCount, domainCount, nextWindowId, nextDomainId := 0, 0, 1, 1;
    }

    /** find_domain_locked */
    method FindDomainIndex(id: nat) returns (i: Option<nat>)
      requires Tables()
      ensures i == FindDomain(domains[..domainCount], id)
    {
      ghost var ds := domains[..domainCount];
      var n := 0;
      while n < domainCount
        invariant 0 <= n <= domainCount
        invariant forall j :: 0 <= j < n ==> !(ds[j].active && ds[j].id == id)
      {
        if domains[n].active && domains[n].id == id {
          FindDomainIs(ds, id, n);
          return Some(n);
        }
        n := n + 1;
      }
      FindDomainIs(ds, id, n);
      i := None;
    }

    /** find_window_locked */
    method FindWindowIndex(id: nat) returns (i: Option<nat>)
      requires Tables()
      ensures i == FindWindow(windows[..windowCount], id)
    {
      ghost var ws := windows[..windowCount];
      var n := 0;
      while n < windowCount
        invariant 0 <= n <= windowCount
        invariant forall j :: 0 <= j < n ==> !(ws[j].active && ws[j].id == id)
      {
        if windows[n].active && windows[n].id == id {
          FindWindowIs(ws, id, n);
          return Some(n);
        }
        n := n + 1;
      }
      FindWindowIs(ws, id, n);
      i := None;
    }

    /** alloc_window_slot_locked, without the step that grows the table. */
    method FindSlot() returns (i: Option<nat>)
      requires Tables()
      ensures i == FreeSlot(windows[..windowCount])
    {
      ghost var ws := windows[..windowCount];
      var n := 0;
      while n < windowCount
        invariant 0 <= n <= windowCount
        invariant forall j :: 0 <= j < n ==> ws[j].active
      {
        if !windows[n].active {
          FreeSlotIs(ws, 0, n);
          return Some(n);
        }
        n := n + 1;
      }
      FreeSlotIs(ws, 0, n);
      i := if windowCount >= MAX_WINDOWS then None else Some(windowCount);
    }

    /** update_window_accounting_locked */
    method UpdateAccounting(mask: bv32, up: bool)
      requires Tables()
      modifies domains
      ensures domains[..domainCount] == AccountAll(old(domains[..domainCount]), mask, up)
    {
      var i := 0;
      while i < domainCount
        invariant 0 <= i <= domainCount
        invariant forall j :: 0 <= j < i ==> domains[j] == Account(old(domains[j]), mask, up)
        invariant forall j :: i <= j < domainCount ==> domains[j] == old(domains[j])
      {
        domains[i] := Account(domains[i], mask, up);
        i := i + 1;
      }
    }

    /** The window goes into its slot, and the table grows when the slot is one past the end. */
    method WriteWindow(i: nat, w: Window)
      requires Tables() && i <= windowCount && i < MAX_WINDOWS && w.tensorId < U32_LIMIT
      modifies this`windowCount, windows
      ensures Tables() && windows[..windowCount] == PutWindow(old(windows[..windowCount]), i, w)
    {
      windows[i] := w;
      if i == windowCount {
        windowCount := windowCount + 1;
      }
    }

    /** memory_fabric_domain_open */
    method OpenDomain(budgetKib: U32) returns (status: Status)
      requires Valid()
      modifies this, domains
      ensures Valid() && mm.pools == old(mm.pools) && (Abs(), status) == Open(old(Abs()), budgetKib)
    {
      hide mm.Sound, P.Inv;
      if domainCount >= MAX_DOMAINS {
        return Busy;
      }
      domains[domainCount] := Domain(nextDomainId, true, budgetKib, 0);
      domainCount := domainCount + 1;
      nextDomainId := (nextDomainId + 1) % U32_LIMIT;
      assert domains[..domainCount] == old(domains[..domainCount]) + [domains[domainCount - 1]];
      status := Ok;
    }

    /** The table half of a share, once the reference on the tensor is held. */
    method InstallWindow(owner: U32, t: T.Tensor, readers: bv32, writers: bv32, slot: nat)
      requires Tables() && slot <= windowCount && slot < MAX_WINDOWS && t.id < U32_LIMIT
      modifies this, windows, domains
      ensures Tables() && domainCount == old(domainCount) && nextDomainId == old(nextDomainId)
      ensures var w := NewWindow(old(nextWindowId), owner, t, readers, writers);
              && windows[..windowCount] == PutWindow(old(windows[..windowCount]), slot, w)
              && nextWindowId == (old(nextWindowId) + 1) % U32_LIMIT
              && domains[..domainCount] == AccountAll(old(domains[..domainCount]), w.readers | w.writers, true)
    {
      hide Bit, AccountAll, PutWindow;
      var w := Window(nextWindowId, t.id, owner, t.size, readers | Bit(owner) | writers, writers | Bit(owner), true, 1);
      nextWindowId := (nextWindowId + 1) % U32_LIMIT;
      WriteWindow(slot, w);
      UpdateAccounting(w.readers | w.writers, true);
    }

    /** memory_fabric_window_share */
    method ShareWindow(owner: U32, tensorId: U32, readers: bv32, writers: bv32) returns (status: Status)
      requires Valid()
      modifies this, windows, domains, mm, mm.lists, mm.table
      ensures Valid() && mm.pools == old(mm.pools)
      ensures (Abs(), status) == Share(old(Abs()), owner, tensorId, readers, writers)
    {
      hide P.Inv, T.Ref, ShareHeld, mm.ListsOk;
      if tensorId == 0 {
        return Inval;
      }
      var found := mm.FindIndex(tensorId);
      if found.None? {
        return Inval;
      }
      var t := mm.table[found.value];
      status := mm.RefTensor(tensorId);
      status := InstallOrUndo(owner, t, readers, writers);
    }

    /** The rest of a share: the reference just taken is given back when there is no owner or no slot. */
    method InstallOrUndo(owner: U32, t: T.Tensor, readers: bv32, writers: bv32) returns (status: Status)
      requires Valid() && t.id < U32_LIMIT
      modifies this, windows, domains, mm, mm.lists, mm.table
      ensures Valid() && mm.pools == old(mm.pools)
      ensures (Abs(), status) == ShareHeld(old(Abs()), owner, t, readers, writers)
    {
      hide P.Inv, T.Unref, AccountAll, FreeSlot, FindDomain, PutWindow, NewWindow, mm.ListsOk;
      var owned := FindDomainIndex(owner);
      if owned.None? {
        var ignored := mm.UnrefTensor(t.id);
        return Inval;
      }
      var slot := FindSlot();
      if slot.None? {
        var ignored := mm.UnrefTensor(t.id);
        return Busy;
      }
      InstallWindow(owner, t, readers, writers, slot.value);
      status := Ok;
    }

    /** The checks of memory_fabric_window_attach, which only read. */
    method CheckAttach(windowId: U32, domainId: U32, write: bool) returns (status: Status, i: nat)
      requires Valid()
      ensures status == Attach(Abs(), windowId, domainId, write).1
      ensures status == Ok ==> FindWindow(windows[..windowCount], windowId) == Some(i)
    {
      hide P.Inv, Lacks, Nameless, FindWindow, FindDomain, mm.ListsOk;
      i := 0;
      if Nameless(domainId) {
        return Inval, i;
      }
      var found := FindWindowIndex(windowId);
      var domain := FindDomainIndex(domainId);
      if found.None? || domain.None? {
        return Inval, i;
      }
      i := found.value;
      if Lacks(windows[i].readers, domainId) {
        return Perm, i;
      }
      if write && Lacks(windows[i].writers, domainId) {
        return Perm, i;
      }
      status := Ok;
    }

    /** memory_fabric_window_attach */
    method AttachWindow(windowId: U32, domainId: U32, write: bool) returns (status: Status)
      requires Valid()
      modifies windows
      ensures Valid() && (Abs(), status) == Attach(old(Abs()), windowId, domainId, write)
    {
      hide P.Inv, Lacks, Nameless, FindWindow, FindDomain, mm.ListsOk;
      var i;
      status, i := CheckAttach(windowId, domainId, write);
      if status == Ok {
        var w := windows[i];
        windows[i] := w.(mapCount := if w.mapCount + 1 > 0xFFFF then 0xFFFF else w.mapCount + 1);
        assert windows[..windowCount] == old(windows[..windowCount])[i := windows[i]];
      }
    }

    /** memory_fabric_window_release */
    method ReleaseWindow(windowId: U32) returns (status: Status)
      requires Valid()
      modifies this, windows, domains, mm, mm.lists, mm.table
      ensures Valid() && mm.pools == old(mm.pools)
      ensures (Abs(), status) == Release(old(Abs()), windowId)
    {
      hide P.Inv, T.Unref, AccountAll, FindWindow, mm.ListsOk;
      var found := FindWindowIndex(windowId);
      if found.None? {
        return Inval;
      }
      var w := windows[found.value];
      UpdateAccounting(w.readers | w.writers, false);
      windows[found.value] := Closed(w);
      assert windows[..windowCount] == old(windows[..windowCount])[found.value := Closed(w)];
      status := mm.UnrefTensor(w.tensorId);
    }
  }
}
