/**
 Shared memory windows on top of the tensor manager. A window holds one reference on its tensor
 from share to release; the ghost part of the state remembers which creators still hold theirs.
 */
module FabricSpec {
  import opened Types
  import opened FreeBlocks
  import T = TensorSpec

  const MAX_DOMAINS: nat := 16
  const MAX_WINDOWS: nat := 64

  datatype Domain = Domain(id: nat, active: bool, budgetKib: U32, attached: nat)

  datatype Window = Window(
    id: nat, tensorId: nat, owner: nat, size: nat, readers: bv32, writers: bv32, active: bool, mapCount: nat)

  datatype Fabric = Fabric(
    mem: T.State, windows: seq<Window>, nextWindowId: nat, domains: seq<Domain>, nextDomainId: nat)

  /** domain_bit */
  function Bit(domainId: nat): bv32 {
    if domainId == 0 || domainId > 32 then 0 else (1 as bv32) << (domainId - 1)
  }

  predicate Lacks(mask: bv32, domainId: nat) { mask & Bit(domainId) == 0 }

  predicate Nameless(domainId: nat) { Bit(domainId) == 0 }

  /** find_domain_locked: the first active match. */
  function FindDomain(ds: seq<Domain>, id: nat): (i: Option<nat>)
    ensures i.Some? ==> i.value < |ds| && ds[i.value].active && ds[i.value].id == id
    ensures i.Some? ==> forall j :: 0 <= j < i.value ==> !(ds[j].active && ds[j].id == id)
    ensures i.None? ==> forall j :: 0 <= j < |ds| ==> !(ds[j].active && ds[j].id == id)
  {
    if ds == [] then None
    else if ds[0].active && ds[0].id == id then Some(0)
    else match FindDomain(ds[1..], id)
      case None => assert forall j :: 1 <= j < |ds| ==> ds[j] == ds[1..][j - 1]; None
      case Some(i) => assert forall j :: 1 <= j < i + 1 ==> ds[j] == ds[1..][j - 1]; Some(i + 1)
  }

  /** find_window_locked: the first active match. */
  function FindWindow(ws: seq<Window>, id: nat): (i: Option<nat>)
    ensures i.Some? ==> i.value < |ws| && ws[i.value].active && ws[i.value].id == id
    ensures i.Some? ==> forall j :: 0 <= j < i.value ==> !(ws[j].active && ws[j].id == id)
    ensures i.None? ==> forall j :: 0 <= j < |ws| ==> !(ws[j].active && ws[j].id == id)
  {
    if ws == [] then None
    else if ws[0].active && ws[0].id == id then Some(0)
    else match FindWindow(ws[1..], id)
      case None => assert forall j :: 1 <= j < |ws| ==> ws[j] == ws[1..][j - 1]; None
      case Some(i) => assert forall j :: 1 <= j < i + 1 ==> ws[j] == ws[1..][j - 1]; Some(i + 1)
  }

  /** alloc_window_slot_locked: the first inactive slot, or one past the end while there is room. */
  function FreeSlot(ws: seq<Window>): (i: Option<nat>)
    ensures i.Some? ==> i.value <= |ws| && (i.value < |ws| ==> !ws[i.value].active)
    ensures i.Some? ==> forall j :: 0 <= j < i.value ==> ws[j].active
    ensures i.Some? && i.value == |ws| ==> |ws| < MAX_WINDOWS
    ensures i.None? ==> (forall j :: 0 <= j < |ws| ==> ws[j].active) && |ws| >= MAX_WINDOWS
  {
    FreeSlotFrom(ws, 0)
  }

  function FreeSlotFrom(ws: seq<Window>, n: nat): (i: Option<nat>)
    requires n <= |ws| && forall j :: 0 <= j < n ==> ws[j].active
    ensures i.Some? ==> n <= i.value <= |ws| && (i.value < |ws| ==> !ws[i.value].active)
    ensures i.Some? ==> forall j :: 0 <= j < i.value ==> ws[j].active
    ensures i.Some? && i.value == |ws| ==> |ws| < MAX_WINDOWS
    ensures i.None? ==> (forall j :: 0 <= j < |ws| ==> ws[j].active) && |ws| >= MAX_WINDOWS
    decreases |ws| - n
  {
    if n == |ws| then (if |ws| >= MAX_WINDOWS then None else Some(n))
    else if !ws[n].active then Some(n) else FreeSlotFrom(ws, n + 1)
  }

  function PutWindow(ws: seq<Window>, i: nat, w: Window): (r: seq<Window>)
    requires i <= |ws|
  {
    if i < |ws| then ws[i := w] else ws + [w]
  }

  /** One domain of update_window_accounting_locked. */
  function Account(d: Domain, mask: bv32, up: bool): Domain {
    if Lacks(mask, d.id) then d
    else if up then d.(attached := if d.attached + 1 > 0xFFFF then 0xFFFF else d.attached + 1)
    else if d.attached > 0 then d.(attached := d.attached - 1)
    else d
  }

  function AccountAll(ds: seq<Domain>, mask: bv32, up: bool): (r: seq<Domain>)
    ensures |r| == |ds| && forall i :: 0 <= i < |ds| ==> r[i] == Account(ds[i], mask, up)
  {
    seq(|ds|, i requires 0 <= i < |ds| => Account(ds[i], mask, up))
  }

  /** memory_fabric_domain_open */
  function Open(f: Fabric, budgetKib: U32): (r: (Fabric, Status)) {
    if |f.domains| >= MAX_DOMAINS then (f, Busy)
    else (f.(domains := f.domains + [Domain(f.nextDomainId, true, budgetKib, 0)],
             nextDomainId := (f.nextDomainId + 1) % U32_LIMIT), Ok)
  }

  /** The reader mask of a new window: the named readers, the owner and every writer. */
  function ReadMask(owner: nat, readers: bv32, writers: bv32): bv32 { readers | Bit(owner) | writers }

  function WriteMask(owner: nat, writers: bv32): bv32 { writers | Bit(owner) }

  function NewWindow(id: nat, owner: nat, t: T.Tensor, readers: bv32, writers: bv32): (w: Window)
    ensures w.id == id && w.active && w.tensorId == t.id
  {
    Window(id, t.id, owner, t.size, ReadMask(owner, readers, writers), WriteMask(owner, writers), true, 1)
  }

  /** The rest of a share once the reference is held: it is given back on every failure. */
  function ShareHeld(f: Fabric, owner: U32, t: T.Tensor, readers: bv32, writers: bv32): (r: (Fabric, Status))
    requires T.Shaped(f.mem)
  {
    if FindDomain(f.domains, owner).None? then (f.(mem := T.Unref(f.mem, t.id).0), Inval)
    else match FreeSlot(f.windows)
      case None => (f.(mem := T.Unref(f.mem, t.id).0), Busy)
      case Some(slot) =>
        var w := NewWindow(f.nextWindowId, owner, t, readers, writers);
        (f.(windows := PutWindow(f.windows, slot, w),
            nextWindowId := (f.nextWindowId + 1) % U32_LIMIT,
            domains := AccountAll(f.domains, w.readers | w.writers, true)), Ok)
  }

  /** memory_fabric_window_share: the reference is taken first. */
  function Share(f: Fabric, owner: U32, tensorId: U32, readers: bv32, writers: bv32): (r: (Fabric, Status))
    requires T.Shaped(f.mem)
  {
    if tensorId == 0 then (f, Inval)
    else match T.FindTensor(f.mem.tensors, tensorId)
      case None => (f, Inval)
      case Some(i) => ShareHeld(f.(mem := T.Ref(f.mem, tensorId).0), owner, f.mem.tensors[i], readers, writers)
  }

  /** memory_fabric_window_attach */
  function Attach(f: Fabric, windowId: U32, domainId: U32, write: bool): (r: (Fabric, Status)) {
    if Nameless(domainId) then (f, Inval)
    else match FindWindow(f.windows, windowId)
      case None => (f, Inval)
      case Some(i) =>
        var w := f.windows[i];
        if FindDomain(f.domains, domainId).None? then (f, Inval)
        else if Lacks(w.readers, domainId) then (f, Perm)
        else if write && Lacks(w.writers, domainId) then (f, Perm)
        else (f.(windows := f.windows[i := w.(mapCount := if w.mapCount + 1 > 0xFFFF then 0xFFFF else w.mapCount + 1)]), Ok)
  }

  function Closed(w: Window): Window { w.(active := false, readers := 0, writers := 0, mapCount := 0) }

  /** memory_fabric_window_release: the status is that of dropping the tensor reference. */
  function Release(f: Fabric, windowId: U32): (r: (Fabric, Status))
    requires T.Shaped(f.mem)
  {
    match FindWindow(f.windows, windowId)
    case None => (f, Inval)
    case Some(i) =>
      var w := f.windows[i];
      var (mem, status) := T.Unref(f.mem, w.tensorId);
      (f.(mem := mem, windows := f.windows[i := Closed(w)],
          domains := AccountAll(f.domains, w.readers | w.writers, false)), status)
  }
}
